/** The page controllers of part4/scripts.js, as pure functions from what the
    browser supplies (path, cookie text, query `id`, the replies to each
    request, the values of the filter controls) to the effects the script
    causes, in order. A `Fetch` effect records a request being issued; the
    reply to it is an input. A handler's `token` is what `getCookie("token")`
    returns while it runs: `OnLoad` reads it from the cookie text, and the
    review form reads it again at submit time. */
module Pages {
  import opened Basics
  import opened Text
  import opened Cookie
  import opened Gateway
  import opened Routes
  import opened Listing

  /** The outcome of `res.json()`: a parsed value, or a parse error with its message. */
  datatype Json<T> = Parsed(value: T) | Unparsable(message: string)

  /** The outcome of `await fetch(...)`: a response (status, `res.text()`,
      `res.json()`), or a rejected promise with the error's message. */
  datatype Reply<T> = Response(status: nat, text: string, json: Json<T>) | Rejected(message: string)

  /** `res.ok`. */
  predicate IsOk<T>(reply: Reply<T>)
  {
    reply.Response? && 200 <= reply.status <= 299
  }

  /** A response that is not ok. */
  predicate IsFailure<T>(reply: Reply<T>)
  {
    reply.Response? && !(200 <= reply.status <= 299)
  }

  /** The page elements the script writes into. */
  datatype Region = PlaceBox | ReviewsBox | PlacesList | LoginLink

  datatype Person = Person(firstName: string, lastName: string)

  /** The detail block of the place page. */
  datatype PlaceView = PlaceView(title: string, price: Num, location: string, description: string, host: string)

  /** One review card: comment, author and rating as displayed. */
  datatype ReviewCard = ReviewCard(comment: string, author: string, rating: string)

  datatype Effect =
    | Fetch(request: Request)
    | Navigate(url: string)            // location.href = url
    | ShowText(region: Region, text: string)
    | ShowCountries(options: seq<string>)
    | ShowListing(list: ListView)
    | ShowPlace(place: PlaceView)
    | ShowReviews(cards: seq<ReviewCard>)
    | ShowAddReview(link: string)      // the Add Review button
    | ListenSubmit(form: string)
    | ListenFilters
    | Alert(message: string)
    | SetCookie(name: string, value: string)

  /** The requests among `es`, in the order they are issued. */
  function Fetches(es: seq<Effect>): seq<Request>
  {
    if |es| == 0 then []
    else (if es[0].Fetch? then [es[0].request] else []) + Fetches(es[1..])
  }

  lemma {:induction false} FetchesAppend(a: seq<Effect>, b: seq<Effect>)
    ensures Fetches(a + b) == Fetches(a) + Fetches(b)
  {
    if |a| > 0 {
      assert (a + b)[1..] == a[1..] + b;
      FetchesAppend(a[1..], b);
    } else {
      assert a + b == b;
    }
  }

  /** No effect of `es` issues a request. */
  predicate Quiet(es: seq<Effect>)
  {
    forall e :: e in es ==> !e.Fetch?
  }

  /** The effects contain no navigation. */
  predicate StaysOnPage(es: seq<Effect>)
  {
    forall e :: e in es ==> !e.Navigate?
  }

  /** Effects without a request contribute no requests. */
  lemma {:induction false} NoFetches(es: seq<Effect>)
    requires Quiet(es)
    ensures Fetches(es) == []
  {
    if |es| > 0 {
      assert es[0] in es;
      NoFetches(es[1..]);
    }
  }

  /** A request followed by an effect that is not one issues just that request. */
  lemma FetchesOfStep(req: Request, e: Effect)
    requires !e.Fetch?
    ensures Fetches([Fetch(req), e]) == [req]
  {
    assert [Fetch(req), e][1..] == [e];
    assert Fetches([e]) == [] by {
      assert [e][1..] == [];
    }
  }

  /** `x || ""` for an optional string. */
  function OrEmpty(x: Option<string>): string
  {
    match x
    case Some(s) => s
    case None => ""
  }

  /** An optional string is truthy when present and non-empty. */
  predicate Truthy(x: Option<string>)
  {
    x.Some? && x.value != ""
  }

  /** A value interpolated into a template literal: an absent one reads "null". */
  function Interpolated(x: Option<string>): string
  {
    match x
    case Some(s) => s
    case None => "null"
  }

  // ---------------------------------------------------------------- login

  /** The JSON body of a successful login. */
  datatype LoginJson = LoginJson(accessToken: Option<string>)

  const LoginPath := "/api/v1/auth/login"

  /** The login request: plain `fetch`, so no token header even when a
      token cookie exists; the email is trimmed, the password is not. */
  function LoginRequest(email: string, password: string): Request
  {
    Request(LoginPath, "POST", map[ContentType := JsonType], Credentials(JsTrim(email), password))
  }

  /** `setCookie("token", data.access_token)`: a missing token is written as
      the text "undefined". */
  function TokenText(data: LoginJson): string
  {
    match data.accessToken
    case Some(t) => t
    case None => "undefined"
  }

  function LoginLoad(hasForm: bool): seq<Effect>
  {
    if hasForm then [ListenSubmit("login-form")] else []
  }

  /** The login form's submit handler. The token cookie is written exactly
      when the response is ok and its body parses, and only then does the
      page move to the index; otherwise the user gets an alert. */
  function LoginSubmit(email: string, password: string, reply: Reply<LoginJson>): (es: seq<Effect>)
    ensures |es| >= 2 && es[0] == Fetch(LoginRequest(email, password))
    ensures Quiet(es[1..])
    ensures Authorization !in es[0].request.headers
    ensures IsOk(reply) && reply.json.Parsed? ==>
              es == [es[0], SetCookie("token", TokenText(reply.json.value)), Navigate("index.html")]
    ensures !(IsOk(reply) && reply.json.Parsed?) ==> StaysOnPage(es) && |es| == 2 && es[1].Alert?
    ensures IsFailure(reply) ==> es[1] == Alert("Login failed: " + reply.text)
    ensures reply.Rejected? ==> es[1] == Alert("Login error: " + reply.message)
    ensures IsOk(reply) && reply.json.Unparsable? ==> es[1] == Alert("Login error: " + reply.json.message)
  {
    var sent := Fetch(LoginRequest(email, password));
    match reply
    case Rejected(m) => [sent, Alert("Login error: " + m)]
    case Response(status, text, json) =>
      if !(200 <= status <= 299) then [sent, Alert("Login failed: " + text)]
      else match json
        case Unparsable(m) => [sent, Alert("Login error: " + m)]
        case Parsed(data) => [sent, SetCookie("token", TokenText(data)), Navigate("index.html")]
  }

  /** After an ok login whose body carries an access token, the cookie
      entry written is `token=<that token>` and the page then moves on; the
      entry reads back through `getCookie` (`Cookie.SingleEntryReadsBack`). */
  lemma LoginWritesToken(email: string, password: string, status: nat, text: string, token: string)
    requires 200 <= status <= 299
    ensures var es := LoginSubmit(email, password, Response(status, text, Parsed(LoginJson(Some(token)))));
            SetCookie("token", token) in es && es[|es| - 1] == Navigate("index.html")
  {
    var es := LoginSubmit(email, password, Response(status, text, Parsed(LoginJson(Some(token)))));
    assert es[1] == SetCookie("token", token);
  }

  // ---------------------------------------------------------------- index

  const PlacesPath := "/api/v1/places/"

  /** What the index page shows once the listings have arrived: the country
      options, the filter listeners, then the first rendering of the list. */
  function Listed(places: seq<Place>, controls: Controls): (es: seq<Effect>)
    ensures |es| == 3 && Quiet(es) && StaysOnPage(es)
    ensures es[0] == ShowCountries(Countries(places)) && ListenFilters in es
    ensures es[|es| - 1] == ShowListing(Render(places, controls.country, controls.price))
  {
    var es := [ShowCountries(Countries(places)), ListenFilters,
               ShowListing(Render(places, controls.country, controls.price))];
    assert es[1] == ListenFilters;
    es
  }

  /** An error note in the places list. */
  function ListError(message: string): (es: seq<Effect>)
    ensures es == [ShowText(PlacesList, "Error: " + message)] && Quiet(es) && StaysOnPage(es)
  {
    [ShowText(PlacesList, "Error: " + message)]
  }

  /** The part of the index handler after the places request is issued:
      no further request and no navigation, and a failed response ends in
      the status message. */
  function IndexOutcome(reply: Reply<seq<Place>>, controls: Controls): (es: seq<Effect>)
    ensures |es| >= 1 && Quiet(es) && StaysOnPage(es)
    ensures IsFailure(reply) ==> es == [ShowText(PlacesList, "Error: Failed to load places: " + Decimal(reply.status))]
    ensures reply.Rejected? ==> es == [ShowText(PlacesList, "Error: " + reply.message)]
    ensures IsOk(reply) && reply.json.Unparsable? ==> es == [ShowText(PlacesList, "Error: " + reply.json.message)]
    ensures IsOk(reply) && reply.json.Parsed? ==>
              && |es| == 3
              && es[0] == ShowCountries(Countries(reply.json.value))
              && es[1] == ListenFilters
              && es[2] == ShowListing(Render(reply.json.value, controls.country, controls.price))
  {
    match reply
    case Rejected(m) => ListError(m)
    case Response(status, _, json) =>
      if !(200 <= status <= 299) then [ShowText(PlacesList, "Error: Failed to load places: " + Decimal(status))]
      else match json
        case Unparsable(m) => ListError(m)
        case Parsed(places) => Listed(places, controls)
  }

  /** The index handler: without a token it only redirects to the login page;
      with one it shows a loading message, issues the places request and
      never leaves the page. A 401 is treated like any other failure: no
      redirect. */
  function IndexLoad(token: string, reply: Reply<seq<Place>>, controls: Controls): (es: seq<Effect>)
    ensures token == "" ==> es == [Navigate("login.html")]
    ensures token != "" ==>
              |es| >= 3 && es[0] == ShowText(PlacesList, "Loading places\U{2026}")
              && es[1] == Fetch(ApiFetch(token, PlacesPath, NoOptions))
              && es[2..] == IndexOutcome(reply, controls)
              && Quiet(es[2..]) && StaysOnPage(es)
    ensures token != "" && IsFailure(reply) ==>
              es[|es| - 1] == ShowText(PlacesList, "Error: Failed to load places: " + Decimal(reply.status))
  {
    if token == "" then [Navigate("login.html")]
    else
      var tail := IndexOutcome(reply, controls);
      var es := [ShowText(PlacesList, "Loading places\U{2026}"), Fetch(ApiFetch(token, PlacesPath, NoOptions))] + tail;
      assert es[2..] == tail;
      es
  }

  /** With a token the index page issues exactly one request, for the
      places, and it carries the token as a bearer credential. */
  lemma IndexRequests(token: string, reply: Reply<seq<Place>>, controls: Controls)
    requires token != ""
    ensures var es := IndexLoad(token, reply, controls);
            Fetches(es) == [ApiFetch(token, PlacesPath, NoOptions)]
            && Fetches(es)[0].headers[Authorization] == "Bearer " + token
  {
    var req := ApiFetch(token, PlacesPath, NoOptions);
    var tail := IndexOutcome(reply, controls);
    assert IndexLoad(token, reply, controls) == [ShowText(PlacesList, "Loading places\U{2026}"), Fetch(req)] + tail;
    OneFetchBetween(ShowText(PlacesList, "Loading places\U{2026}"), req, tail);
  }

  /** A quiet effect, one request, then quiet effects: that request alone. */
  lemma OneFetchBetween(a: Effect, req: Request, tail: seq<Effect>)
    requires !a.Fetch? && Quiet(tail)
    ensures Fetches([a, Fetch(req)] + tail) == [req]
  {
    var es := [a, Fetch(req)] + tail;
    assert es[1..] == [Fetch(req)] + tail;
    assert ([Fetch(req)] + tail)[1..] == tail;
    NoFetches(tail);
  }

  // ---------------------------------------------------------------- place

  /** The fields of GET /api/v1/places/<id>/ the place page reads. */
  datatype PlaceJson = PlaceJson(title: string, price: Num, city: Option<string>,
                                 country: Option<string>, description: Option<string>,
                                 owner: Option<Person>)

  /** A review as returned by GET /api/v1/reviews/places/<id>/reviews. */
  datatype ReviewJson = ReviewJson(comment: Option<string>, user: Option<Person>, rating: Option<int>)

  /** That endpoint's body: an array of reviews, or anything else. */
  datatype ReviewsJson = ReviewArray(items: seq<ReviewJson>) | NotAnArray

  function FullName(p: Person): string
  {
    p.firstName + " " + p.lastName
  }

  /** The detail block: the location is the city (or nothing) followed by
      ", <country>" only for a non-empty country, so it is empty exactly
      when both are missing or empty; the host is the owner's full name, and
      a dash exactly when there is no owner. */
  function DetailView(p: PlaceJson): (v: PlaceView)
    ensures v.title == p.title && v.price == p.price
    ensures OrEmpty(p.city) <= v.location
    ensures Truthy(p.country) ==> EndsWith(v.location, ", " + p.country.value)
    ensures !Truthy(p.country) ==> v.location == OrEmpty(p.city)
    ensures |v.location| == |OrEmpty(p.city)| + (if Truthy(p.country) then 2 + |p.country.value| else 0)
    ensures v.location == "" <==> !Truthy(p.city) && !Truthy(p.country)
    ensures v.description == "" <==> !Truthy(p.description)
    ensures Truthy(p.description) ==> v.description == p.description.value
    ensures v.host == "\U{2014}" <==> p.owner.None?
    ensures p.owner.Some? ==> v.host == FullName(p.owner.value)
  {
    var suffix := if Truthy(p.country) then ", " + p.country.value else "";
    var location := OrEmpty(p.city) + suffix;
    var host := match p.owner
      case Some(o) => FullName(o)
      case None => "\U{2014}";
    FullNameIsNoFallback(p.owner);
    assert location[|OrEmpty(p.city)|..] == suffix;
    PlaceView(p.title, p.price, location, OrEmpty(p.description), host)
  }

  /** A present person's full name is neither "Anonymous" nor a dash. */
  lemma FullNameIsNoFallback(p: Option<Person>)
    ensures p.Some? ==> FullName(p.value) != "Anonymous" && FullName(p.value) != "\U{2014}"
  {
    if p.Some? {
      assert FullName(p.value)[|p.value.firstName|] == ' ';
    }
  }

  /** A present rating never renders as the dash. */
  lemma IntTextIsNoDash(n: Option<int>)
    ensures n.Some? ==> IntText(n.value) != "\U{2014}"
  {
    if n.Some? {
      var t := IntText(n.value);
      assert t[0] == '-' || IsDigit(t[0]);
    }
  }

  /** A review card, with "Anonymous" for a missing user and a dash for a
      missing rating (`??`, so a rating of 0 is shown as 0). A full name
      always holds a space and a rendered number starts with a digit or a
      minus sign, so each fallback shows exactly when its field is missing. */
  function ReviewCardOf(r: ReviewJson): (c: ReviewCard)
    ensures c.author == "Anonymous" <==> r.user.None?
    ensures r.user.Some? ==> c.author == FullName(r.user.value)
    ensures c.rating == "\U{2014}" <==> r.rating.None?
    ensures r.rating.Some? ==> c.rating == IntText(r.rating.value)
    ensures c.comment == "" <==> !Truthy(r.comment)
    ensures Truthy(r.comment) ==> c.comment == r.comment.value
  {
    var author := match r.user
      case Some(u) => FullName(u)
      case None => "Anonymous";
    var rating := match r.rating
      case Some(n) => IntText(n)
      case None => "\U{2014}";
    FullNameIsNoFallback(r.user);
    IntTextIsNoDash(r.rating);
    ReviewCard(OrEmpty(r.comment), author, rating)
  }

  function DetailPath(id: string): string
  {
    "/api/v1/places/" + id + "/"
  }

  function ReviewsPath(id: string): string
  {
    "/api/v1/reviews/places/" + id + "/reviews"
  }

  /** The detail `try` block: what it shows, and whether the handler goes on
      (a non-ok status `return`s from the whole handler). */
  function DetailEffect(reply: Reply<PlaceJson>): (e: Effect)
    ensures e.ShowPlace? <==> IsOk(reply) && reply.json.Parsed?
    ensures e.ShowPlace? ==> e.place == DetailView(reply.json.value)
    ensures IsFailure(reply) ==> e == ShowText(PlaceBox, "Error " + Decimal(reply.status))
    ensures reply.Rejected? ==> e == ShowText(PlaceBox, "Failed to load place: " + reply.message)
    ensures IsOk(reply) && reply.json.Unparsable? ==> e == ShowText(PlaceBox, "Failed to load place: " + reply.json.message)
    ensures e.ShowText? ==> e.region == PlaceBox
  {
    match reply
    case Rejected(m) => ShowText(PlaceBox, "Failed to load place: " + m)
    case Response(status, _, json) =>
      if !(200 <= status <= 299) then ShowText(PlaceBox, "Error " + Decimal(status))
      else match json
        case Unparsable(m) => ShowText(PlaceBox, "Failed to load place: " + m)
        case Parsed(p) => ShowPlace(DetailView(p))
  }

  /** The reviews `try` block: one card per review, "No reviews yet." for an
      empty list or a body that is not an array, and an inline message on
      failure. */
  function ReviewsEffect(reply: Reply<ReviewsJson>): (e: Effect)
    ensures IsOk(reply) && reply.json.Parsed? && reply.json.value.ReviewArray?
            && |reply.json.value.items| > 0 ==>
              e.ShowReviews? && |e.cards| == |reply.json.value.items|
              && forall i :: 0 <= i < |e.cards| ==> e.cards[i] == ReviewCardOf(reply.json.value.items[i])
    ensures IsOk(reply) && reply.json.Parsed?
            && (reply.json.value.NotAnArray? || |reply.json.value.items| == 0) ==>
              e == ShowText(ReviewsBox, "No reviews yet.")
    ensures IsFailure(reply) ==> e == ShowText(ReviewsBox, "Couldn\U{2019}t load reviews (" + Decimal(reply.status) + ").")
    ensures reply.Rejected? ==> e == ShowText(ReviewsBox, "Error loading reviews: " + reply.message)
    ensures IsOk(reply) && reply.json.Unparsable? ==> e == ShowText(ReviewsBox, "Error loading reviews: " + reply.json.message)
    ensures e.ShowText? || e.ShowReviews?
    ensures e.ShowText? ==> e.region == ReviewsBox
  {
    match reply
    case Rejected(m) => ShowText(ReviewsBox, "Error loading reviews: " + m)
    case Response(status, _, json) =>
      if 200 <= status <= 299 then
        match json
        case Unparsable(m) => ShowText(ReviewsBox, "Error loading reviews: " + m)
        case Parsed(body) =>
          if body.ReviewArray? && |body.items| > 0 then
            ShowReviews(seq(|body.items|, i requires 0 <= i < |body.items| => ReviewCardOf(body.items[i])))
          else ShowText(ReviewsBox, "No reviews yet.")
      else ShowText(ReviewsBox, "Couldn\U{2019}t load reviews (" + Decimal(status) + ").")
  }

  /** The query `id` is missing for `!id`: absent or empty. */
  predicate MissingId(id: Option<string>)
  {
    id.None? || id.value == ""
  }

  /** "Logged In" in the login link when there is a token and the link exists. */
  function LoginLinkStep(token: string, hasLoginLink: bool): seq<Effect>
  {
    if token != "" && hasLoginLink then [ShowText(LoginLink, "Logged In")] else []
  }

  /** The Add Review button, shown when there is a token. */
  function AddReviewStep(token: string, pid: string): seq<Effect>
  {
    if token != "" then [ShowAddReview("add_review.html?id=" + pid)] else []
  }

  /** The place page handler. Without an id it only says so. Otherwise the
      login link may change, then the detail request and its outcome; a
      non-ok detail response ends the handler; any other outcome is followed
      by the reviews request, its outcome and, with a token, the Add Review
      button. The page never navigates. */
  function PlaceLoad(token: string, id: Option<string>, hasLoginLink: bool,
                     detail: Reply<PlaceJson>, reviews: Reply<ReviewsJson>): (es: seq<Effect>)
    ensures |es| >= 1 && StaysOnPage(es)
    ensures MissingId(id) ==> es == [ShowText(PlaceBox, "Missing place id")]
    ensures !MissingId(id) ==> Fetch(ApiFetch(token, DetailPath(id.value), NoOptions)) in es
  {
    if MissingId(id) then [ShowText(PlaceBox, "Missing place id")]
    else
      var pid := id.value;
      var detailSteps := [Fetch(ApiFetch(token, DetailPath(pid), NoOptions)), DetailEffect(detail)];
      if IsFailure(detail) then LoginLinkStep(token, hasLoginLink) + detailSteps
      else
        var reviewSteps := [Fetch(ApiFetch(token, ReviewsPath(pid), NoOptions)), ReviewsEffect(reviews)];
        LoginLinkStep(token, hasLoginLink) + detailSteps + reviewSteps + AddReviewStep(token, pid)
  }

  /** The requests up to the detail outcome: just the detail request. */
  lemma DetailStepsFetch(token: string, pid: string, hasLoginLink: bool, detail: Reply<PlaceJson>)
    ensures Fetches(LoginLinkStep(token, hasLoginLink)
                    + [Fetch(ApiFetch(token, DetailPath(pid), NoOptions)), DetailEffect(detail)])
            == [ApiFetch(token, DetailPath(pid), NoOptions)]
  {
    var link := LoginLinkStep(token, hasLoginLink);
    var detailReq := ApiFetch(token, DetailPath(pid), NoOptions);
    NoFetches(link);
    FetchesOfStep(detailReq, DetailEffect(detail));
    FetchesAppend(link, [Fetch(detailReq), DetailEffect(detail)]);
  }

  /** The place page issues no request without an id, and only the detail
      request when the detail response is not ok. */
  lemma PlaceRequestsOnFailure(token: string, id: Option<string>, hasLoginLink: bool,
                               detail: Reply<PlaceJson>, reviews: Reply<ReviewsJson>)
    requires MissingId(id) || IsFailure(detail)
    ensures var es := PlaceLoad(token, id, hasLoginLink, detail, reviews);
            && (MissingId(id) ==> Fetches(es) == [])
            && (!MissingId(id) ==> Fetches(es) == [ApiFetch(token, DetailPath(id.value), NoOptions)])
  {
    var es := PlaceLoad(token, id, hasLoginLink, detail, reviews);
    if MissingId(id) {
      NoFetches(es);
    } else {
      DetailStepsFetch(token, id.value, hasLoginLink, detail);
    }
  }

  /** Otherwise it issues the detail request and then the reviews request. */
  lemma PlaceRequestsOnSuccess(token: string, id: Option<string>, hasLoginLink: bool,
                               detail: Reply<PlaceJson>, reviews: Reply<ReviewsJson>)
    requires !MissingId(id) && !IsFailure(detail)
    ensures Fetches(PlaceLoad(token, id, hasLoginLink, detail, reviews))
            == [ApiFetch(token, DetailPath(id.value), NoOptions), ApiFetch(token, ReviewsPath(id.value), NoOptions)]
  {
    var pid := id.value;
    var first := LoginLinkStep(token, hasLoginLink)
                 + [Fetch(ApiFetch(token, DetailPath(pid), NoOptions)), DetailEffect(detail)];
    var reviewsReq := ApiFetch(token, ReviewsPath(pid), NoOptions);
    assert PlaceLoad(token, id, hasLoginLink, detail, reviews)
           == first + [Fetch(reviewsReq), ReviewsEffect(reviews)] + AddReviewStep(token, pid);
    DetailStepsFetch(token, pid, hasLoginLink, detail);
    SecondFetch(first, reviewsReq, ReviewsEffect(reviews), AddReviewStep(token, pid));
  }

  /** The place page's effects past a detail response that is not a failure. */
  lemma PlaceShape(token: string, pid: string, hasLoginLink: bool,
                   detail: Reply<PlaceJson>, reviews: Reply<ReviewsJson>)
    requires pid != "" && !IsFailure(detail)
    ensures PlaceLoad(token, Some(pid), hasLoginLink, detail, reviews)
            == LoginLinkStep(token, hasLoginLink)
               + [Fetch(ApiFetch(token, DetailPath(pid), NoOptions)), DetailEffect(detail),
                  Fetch(ApiFetch(token, ReviewsPath(pid), NoOptions)), ReviewsEffect(reviews)]
               + AddReviewStep(token, pid)
  {
    var link := LoginLinkStep(token, hasLoginLink);
    var detailSteps := [Fetch(ApiFetch(token, DetailPath(pid), NoOptions)), DetailEffect(detail)];
    var reviewSteps := [Fetch(ApiFetch(token, ReviewsPath(pid), NoOptions)), ReviewsEffect(reviews)];
    assert link + detailSteps + reviewSteps == link + (detailSteps + reviewSteps);
  }

  /** Where the four middle elements of `link + steps + tail` sit. */
  lemma FourAfter<T>(link: seq<T>, steps: seq<T>, tail: seq<T>)
    requires |steps| == 4
    ensures var es := link + steps + tail;
            && |es| == |link| + 4 + |tail|
            && (|link| > 0 ==> es[0] == link[0])
            && es[|link|] == steps[0] && es[|link| + 1] == steps[1]
            && es[|link| + 2] == steps[2] && es[|link| + 3] == steps[3]
            && (|tail| > 0 ==> es[|link| + 4] == tail[0])
  {
  }

  /** With an id and a detail response that is not a failure, the place
      page makes its effects in this order: the login link (when it
      changes), the detail request, the detail outcome, the reviews request,
      the reviews outcome, and the Add Review button (with a token). */
  lemma PlaceOrder(token: string, id: Option<string>, hasLoginLink: bool,
                   detail: Reply<PlaceJson>, reviews: Reply<ReviewsJson>)
    requires !MissingId(id) && !IsFailure(detail)
    ensures var es := PlaceLoad(token, id, hasLoginLink, detail, reviews);
            var k := if token != "" && hasLoginLink then 1 else 0;
            && |es| == k + 4 + (if token != "" then 1 else 0)
            && (k == 1 ==> es[0] == ShowText(LoginLink, "Logged In"))
            && es[k] == Fetch(ApiFetch(token, DetailPath(id.value), NoOptions))
            && es[k + 1] == DetailEffect(detail)
            && es[k + 2] == Fetch(ApiFetch(token, ReviewsPath(id.value), NoOptions))
            && es[k + 3] == ReviewsEffect(reviews)
            && (token != "" ==> es[k + 4] == ShowAddReview("add_review.html?id=" + id.value))
  {
    var pid := id.value;
    PlaceShape(token, pid, hasLoginLink, detail, reviews);
    FourAfter(LoginLinkStep(token, hasLoginLink),
              [Fetch(ApiFetch(token, DetailPath(pid), NoOptions)), DetailEffect(detail),
               Fetch(ApiFetch(token, ReviewsPath(pid), NoOptions)), ReviewsEffect(reviews)],
              AddReviewStep(token, pid));
  }

  /** With an id and a failed detail response, the place page makes the
      login link change (when it applies), the detail request and the error,
      in that order, and nothing else. */
  lemma PlaceDetailOrder(token: string, id: Option<string>, hasLoginLink: bool,
                         detail: Reply<PlaceJson>, reviews: Reply<ReviewsJson>)
    requires !MissingId(id) && IsFailure(detail)
    ensures var es := PlaceLoad(token, id, hasLoginLink, detail, reviews);
            var k := if token != "" && hasLoginLink then 1 else 0;
            && |es| == k + 2
            && (k == 1 ==> es[0] == ShowText(LoginLink, "Logged In"))
            && es[k] == Fetch(ApiFetch(token, DetailPath(id.value), NoOptions))
            && es[k + 1] == ShowText(PlaceBox, "Error " + Decimal(detail.status))
  {
  }

  /** The login link reads "Logged In" exactly when there is an id, a
      token, and a login link on the page; the detail and reviews outcomes
      never write to it. */
  lemma PlaceLoggedIn(token: string, id: Option<string>, hasLoginLink: bool,
                      detail: Reply<PlaceJson>, reviews: Reply<ReviewsJson>)
    ensures ShowText(LoginLink, "Logged In") in PlaceLoad(token, id, hasLoginLink, detail, reviews)
            <==> !MissingId(id) && token != "" && hasLoginLink
  {
    var mark := ShowText(LoginLink, "Logged In");
    if !MissingId(id) {
      var pid := id.value;
      var link := LoginLinkStep(token, hasLoginLink);
      var d := DetailEffect(detail);
      assert d != mark;
      var head := link + [Fetch(ApiFetch(token, DetailPath(pid), NoOptions)), d];
      assert mark in head <==> mark in link;
      if !IsFailure(detail) {
        var r := ReviewsEffect(reviews);
        assert r != mark;
        var tail := [Fetch(ApiFetch(token, ReviewsPath(pid), NoOptions)), r] + AddReviewStep(token, pid);
        assert mark !in tail;
        PlaceShape(token, pid, hasLoginLink, detail, reviews);
        assert PlaceLoad(token, id, hasLoginLink, detail, reviews) == head + tail;
      }
    }
  }

  /** A request followed by quiet effects adds just that request to the
      requests made so far. */
  lemma SecondFetch(first: seq<Effect>, req: Request, e: Effect, rest: seq<Effect>)
    requires !e.Fetch? && Quiet(rest)
    ensures Fetches(first + [Fetch(req), e] + rest) == Fetches(first) + [req]
  {
    FetchesOfStep(req, e);
    NoFetches(rest);
    FetchesAppend(first, [Fetch(req), e]);
    FetchesAppend(first + [Fetch(req), e], rest);
  }

  /** An effect on the reviews part of the place page. */
  predicate OnReviews(e: Effect)
  {
    e.ShowReviews? || (e.ShowText? && e.region == ReviewsBox)
  }

  /** A non-ok detail response ends the place page with "Error <status>",
      and nothing is shown about reviews. */
  lemma PlaceDetailFailure(token: string, id: Option<string>, hasLoginLink: bool,
                           detail: Reply<PlaceJson>, reviews: Reply<ReviewsJson>)
    requires !MissingId(id) && IsFailure(detail)
    ensures var es := PlaceLoad(token, id, hasLoginLink, detail, reviews);
            && es[|es| - 1] == ShowText(PlaceBox, "Error " + Decimal(detail.status))
            && forall e :: e in es ==> !OnReviews(e) && !e.ShowAddReview?
  {
    var es := PlaceLoad(token, id, hasLoginLink, detail, reviews);
    assert es == LoginLinkStep(token, hasLoginLink)
                 + [Fetch(ApiFetch(token, DetailPath(id.value), NoOptions)), DetailEffect(detail)];
  }

  /** Unless the detail response is a failure, the reviews outcome is shown. */
  lemma PlaceReviewsShown(token: string, id: Option<string>, hasLoginLink: bool,
                          detail: Reply<PlaceJson>, reviews: Reply<ReviewsJson>)
    requires !MissingId(id) && !IsFailure(detail)
    ensures ReviewsEffect(reviews) in PlaceLoad(token, id, hasLoginLink, detail, reviews)
  {
    var es := PlaceLoad(token, id, hasLoginLink, detail, reviews);
    var k := |LoginLinkStep(token, hasLoginLink)| + 3;
    assert es[k] == ReviewsEffect(reviews);
  }

  /** The Add Review button for this place appears exactly when there is an
      id, the detail response is not a failure and there is a token. */
  lemma PlaceAddReviewShown(token: string, id: Option<string>, hasLoginLink: bool,
                            detail: Reply<PlaceJson>, reviews: Reply<ReviewsJson>)
    requires !MissingId(id)
    ensures var es := PlaceLoad(token, id, hasLoginLink, detail, reviews);
            ShowAddReview("add_review.html?id=" + id.value) in es <==> !IsFailure(detail) && token != ""
  {
    var es := PlaceLoad(token, id, hasLoginLink, detail, reviews);
    if !IsFailure(detail) && token != "" {
      assert es[|es| - 1] == ShowAddReview("add_review.html?id=" + id.value);
    }
  }

  /** Nothing but the last effect of the place page is an Add Review button. */
  lemma PlaceAddReviewLast(token: string, id: Option<string>, hasLoginLink: bool,
                           detail: Reply<PlaceJson>, reviews: Reply<ReviewsJson>)
    ensures var es := PlaceLoad(token, id, hasLoginLink, detail, reviews);
            forall e :: e in es[..|es| - 1] ==> !e.ShowAddReview?
  {
    if !MissingId(id) {
      if IsFailure(detail) {
        ButtonAbsentOnFailure(token, id.value, hasLoginLink, detail, reviews);
      } else {
        ButtonLastOnSuccess(token, id.value, hasLoginLink, detail, reviews);
      }
    }
  }

  lemma ButtonAbsentOnFailure(token: string, pid: string, hasLoginLink: bool,
                              detail: Reply<PlaceJson>, reviews: Reply<ReviewsJson>)
    requires pid != "" && IsFailure(detail)
    ensures var es := PlaceLoad(token, Some(pid), hasLoginLink, detail, reviews);
            forall e :: e in es[..|es| - 1] ==> !e.ShowAddReview?
  {
    var es := PlaceLoad(token, Some(pid), hasLoginLink, detail, reviews);
    var link := LoginLinkStep(token, hasLoginLink);
    assert es == link + [Fetch(ApiFetch(token, DetailPath(pid), NoOptions)), DetailEffect(detail)];
    assert es[..|es| - 1] == link + [Fetch(ApiFetch(token, DetailPath(pid), NoOptions))];
  }

  lemma ButtonLastOnSuccess(token: string, pid: string, hasLoginLink: bool,
                            detail: Reply<PlaceJson>, reviews: Reply<ReviewsJson>)
    requires pid != "" && !IsFailure(detail)
    ensures var es := PlaceLoad(token, Some(pid), hasLoginLink, detail, reviews);
            forall e :: e in es[..|es| - 1] ==> !e.ShowAddReview?
  {
    var es := PlaceLoad(token, Some(pid), hasLoginLink, detail, reviews);
    var steps := LoginLinkStep(token, hasLoginLink)
                 + [Fetch(ApiFetch(token, DetailPath(pid), NoOptions)), DetailEffect(detail)]
                 + [Fetch(ApiFetch(token, ReviewsPath(pid), NoOptions)), ReviewsEffect(reviews)];
    assert es == steps + AddReviewStep(token, pid);
    assert forall e :: e in steps ==> !e.ShowAddReview?;
    InitWithinFirst(steps, AddReviewStep(token, pid));
  }

  /** Dropping the last effect of `a + b`, with at most one effect in `b`,
      leaves only effects of `a`. */
  lemma InitWithinFirst(a: seq<Effect>, b: seq<Effect>)
    requires |a| >= 1 && |b| <= 1
    ensures forall e :: e in (a + b)[..|a + b| - 1] ==> e in a
  {
    if |b| == 1 {
      assert (a + b)[..|a + b| - 1] == a;
    } else {
      assert (a + b)[..|a + b| - 1] == a[..|a| - 1];
    }
  }

  /** The status text of a 500. */
  lemma Decimal500()
    ensures "Error " + Decimal(500) == "Error 500"
  {
    assert Decimal(50) == "50";
  }

  /** A failed detail request hides the reviews outcome: with a 500 for the
      place and an empty review list available, the page shows "Error 500"
      and never "No reviews yet.", because the reviews are not requested. */
  lemma DetailFailureHidesReviews(token: string, id: string, hasLoginLink: bool, text: string)
    requires id != ""
    ensures var es := PlaceLoad(token, Some(id), hasLoginLink, Response(500, text, Unparsable("")),
                                Response(200, "[]", Parsed(ReviewArray([]))));
            ShowText(PlaceBox, "Error 500") in es
            && ShowText(ReviewsBox, "No reviews yet.") !in es
            && |Fetches(es)| == 1
  {
    var detail: Reply<PlaceJson> := Response(500, text, Unparsable(""));
    var reviews := Response(200, "[]", Parsed(ReviewArray([])));
    var es := PlaceLoad(token, Some(id), hasLoginLink, detail, reviews);
    Decimal500();
    PlaceRequestsOnFailure(token, Some(id), hasLoginLink, detail, reviews);
    PlaceDetailFailure(token, Some(id), hasLoginLink, detail, reviews);
    assert OnReviews(ShowText(ReviewsBox, "No reviews yet."));
  }

  // ---------------------------------------------------------------- add review

  /** The fields the review page looks for in an error body. */
  datatype ErrorJson = ErrorJson(message: Option<string>, msg: Option<string>, error: Option<string>)

  const ReviewsPostPath := "/api/v1/reviews/"

  /** The add-review handler: without a token it only redirects to the index
      and binds no form. */
  function AddReviewLoad(token: string): (es: seq<Effect>)
    ensures token == "" <==> es == [Navigate("index.html")]
    ensures token != "" ==> es == [ListenSubmit("revForm")]
    ensures Fetches(es) == []
  {
    if token == "" then [Navigate("index.html")] else [ListenSubmit("revForm")]
  }

  /** The alert text for a failed review post: the first truthy of
      `message`, `msg`, `error` in a body that parsed (an unparsable body
      counts as `{}`), else "Error <status>". Never empty. */
  function FailureText(status: nat, json: Json<ErrorJson>): (t: string)
    ensures t != ""
    ensures json.Parsed? && Truthy(json.value.message) ==> t == json.value.message.value
    ensures json.Parsed? && !Truthy(json.value.message) && Truthy(json.value.msg) ==> t == json.value.msg.value
    ensures json.Parsed? && !Truthy(json.value.message) && !Truthy(json.value.msg) && Truthy(json.value.error)
            ==> t == json.value.error.value
    ensures (json.Unparsable? || (!Truthy(json.value.message) && !Truthy(json.value.msg) && !Truthy(json.value.error)))
            ==> t == "Error " + Decimal(status)
  {
    var data := match json
      case Parsed(d) => d
      case Unparsable(_) => ErrorJson(None, None, None);
    if Truthy(data.message) then data.message.value
    else if Truthy(data.msg) then data.msg.value
    else if Truthy(data.error) then data.error.value
    else "Error " + Decimal(status)
  }

  /** The review request: POST through `apiFetch` with the token as it is
      at submit time, the comment trimmed. */
  function ReviewRequest(token: string, id: Option<string>, rating: Num, comment: string): Request
  {
    ApiFetch(token, ReviewsPostPath, Options(Some("POST"), map[], NewReview(id, rating, JsTrim(comment))))
  }

  /** The review form's submit handler: one request; a non-ok response
      alerts and stays; an ok one goes to the place page of that id. */
  function ReviewSubmit(token: string, id: Option<string>, rating: Num, comment: string,
                        reply: Reply<ErrorJson>): (es: seq<Effect>)
    ensures |es| == 2 && es[0] == Fetch(ReviewRequest(token, id, rating, comment)) && !es[1].Fetch?
    ensures es[0].request.verb == "POST" && es[0].request.body.comment == JsTrim(comment)
    ensures IsOk(reply) <==> es[1] == Navigate("place.html?id=" + Interpolated(id))
    ensures IsFailure(reply) ==> es[1] == Alert(FailureText(reply.status, reply.json)) && StaysOnPage(es)
    ensures reply.Rejected? ==> es[1] == Alert("Failed: " + reply.message)
  {
    var req := ReviewRequest(token, id, rating, comment);
    var last := match reply
      case Rejected(m) => Alert("Failed: " + m)
      case Response(status, _, json) =>
        if !(200 <= status <= 299) then Alert(FailureText(status, json))
        else Navigate("place.html?id=" + Interpolated(id));
    [Fetch(req), last]
  }

  /** A 400 whose body says `message: "rating must be 1-5"` shows exactly
      that text and leaves the user on the form. */
  lemma RejectedRatingShowsServerMessage(token: string, id: Option<string>, rating: Num, comment: string, text: string)
    ensures var es := ReviewSubmit(token, id, rating, comment,
                                   Response(400, text, Parsed(ErrorJson(Some("rating must be 1-5"), None, None))));
            Alert("rating must be 1-5") in es && StaysOnPage(es)
  {
    var es := ReviewSubmit(token, id, rating, comment,
                           Response(400, text, Parsed(ErrorJson(Some("rating must be 1-5"), None, None))));
    assert es[1] == Alert("rating must be 1-5");
  }

  // ---------------------------------------------------------------- dispatch

  /** Everything a page load depends on. */
  datatype PageLoad = PageLoad(
    path: string,
    cookie: string,
    id: Option<string>,
    hasLoginForm: bool,
    hasLoginLink: bool,
    places: Reply<seq<Place>>,
    controls: Controls,
    detail: Reply<PlaceJson>,
    reviews: Reply<ReviewsJson>)

  /** The `DOMContentLoaded` handler: the one controller whose page the path
      names runs, none when it names no page; the session gates act before
      any request. */
  function OnLoad(page: PageLoad): (es: seq<Effect>)
    ensures (!IsLoginPath(page.path) && !IsIndexPath(page.path) && !IsPlacePath(page.path)
             && !IsAddReviewPath(page.path)) ==> es == []
    ensures IsLoginPath(page.path) ==> Fetches(es) == []
    ensures IsIndexPath(page.path) && GetCookie(page.cookie, "token") == "" ==> es == [Navigate("login.html")]
    ensures IsPlacePath(page.path) && MissingId(page.id) ==> es == [ShowText(PlaceBox, "Missing place id")]
    ensures IsAddReviewPath(page.path) && GetCookie(page.cookie, "token") == "" ==> es == [Navigate("index.html")]
    ensures IsAddReviewPath(page.path) ==> Fetches(es) == []
  {
    var token := GetCookie(page.cookie, "token");
    match Dispatch(page.path)
    case LoginPage =>
      var es := LoginLoad(page.hasLoginForm);
      assert Fetches(es) == [];
      es
    case IndexPage => IndexLoad(token, page.places, page.controls)
    case PlacePage => PlaceLoad(token, page.id, page.hasLoginLink, page.detail, page.reviews)
    case AddReviewPage => AddReviewLoad(token)
    case NoPage => []
  }
}
