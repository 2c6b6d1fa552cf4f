/**
 * The reshaping done by `GET /api/news`: the body Alpha Vantage returned is
 * either turned into a list of articles, one per feed item and in feed
 * order, or into a 502 answer carrying an error message. Every exception
 * thrown while reading the parsed body, `JSON.parse` failing included, is
 * caught and answered with the same 502 message.
 */
module News {
  import opened Wrappers
  import opened JsValues
  import opened AVTime

  const DefaultSource := "Alpha Vantage"
  const BadResponseMessage := "Bad response from news provider"
  const InvalidResponseMessage := "Invalid response from Alpha Vantage"
  const FetchErrorMessage := "Error fetching news"

  /** What the request to the provider produced: a network error, or a body that `JSON.parse` accepted (`Some`) or refused (`None`). */
  datatype Upstream = FetchFailed | Received(parsed: Option<Json>)

  /** One reshaped article; `None` fields are `undefined` and vanish when the answer is serialised. */
  datatype Article = Article(
    title: Value,
    url: Value,
    sourceName: Json,
    publishedAt: string,
    description: Value,
    content: Value)

  /** The answer of the route: status 502 with `{error}`, or status 200 with `{articles}`. */
  datatype NewsOutcome = BadGateway(error: Json) | Articles(articles: seq<Article>)
  {
    function Status(): nat
    {
      if BadGateway? then 502 else 200
    }
  }

  /** The arrow function given to `feed.map`: it throws on a `null` item or an unconvertible `time_published`. */
  function Reshape(item: Json, now: string): (r: Result<Article, Exception>)
    ensures r.Success? <==> !item.JNull? && ConvertAVTime(Lookup(item, "time_published"), now).Success?
    ensures r.Success? ==> var a := r.value;
      && a.title == Lookup(item, "title") && a.url == Lookup(item, "url")
      && a.description == Lookup(item, "summary") && a.content == a.description
  {
    if item.JNull? then Failure(TypeError)
    else
      var source := Or(Lookup(item, "source"), JStr(DefaultSource));
      match ConvertAVTime(Lookup(item, "time_published"), now)
      case Failure(e) => Failure(e)
      case Success(published) =>
        var summary := Lookup(item, "summary");
        Success(Article(Lookup(item, "title"), Lookup(item, "url"), source, published, summary, summary))
  }

  /** `feed.map(...)`: the first item that throws aborts the whole map. */
  function ReshapeFeed(feed: seq<Json>, now: string): (r: Result<seq<Article>, Exception>)
    ensures r.Success? <==> forall i :: 0 <= i < |feed| ==> Reshape(feed[i], now).Success?
    ensures r.Success? ==> |r.value| == |feed|
    ensures r.Success? ==> forall i :: 0 <= i < |feed| ==> Reshape(feed[i], now) == Success(r.value[i])
  {
    if feed == [] then Success([])
    else
      match Reshape(feed[0], now)
      case Failure(e) => Failure(e)
      case Success(first) =>
        match ReshapeFeed(feed[1..], now)
        case Failure(e) => Failure(e)
        case Success(rest) =>
          assert forall i :: 1 <= i < |feed| ==> feed[i] == feed[1..][i - 1];
          Success([first] + rest)
  }

  /** The `'end'` handler of the provider request, with the clock reading passed in as `now`. */
  function HandleNews(upstream: Upstream, now: string): (r: NewsOutcome)
    ensures upstream == FetchFailed ==> r == BadGateway(JStr(FetchErrorMessage))
    ensures upstream == Received(None) ==> r == BadGateway(JStr(BadResponseMessage))
  {
    match upstream
    case FetchFailed => BadGateway(JStr(FetchErrorMessage))
    case Received(None) => BadGateway(JStr(BadResponseMessage))
    case Received(Some(raw)) =>
      match Get(raw, "feed")
      case Failure(_) => BadGateway(JStr(BadResponseMessage))
      case Success(feed) =>
        if !Truthy(feed) then
          BadGateway(Or(Lookup(raw, "Error Message"), JStr(InvalidResponseMessage)))
        else if !feed.value.JArr? then
          BadGateway(JStr(BadResponseMessage))
        else
          match ReshapeFeed(feed.value.items, now)
          case Failure(_) => BadGateway(JStr(BadResponseMessage))
          case Success(articles) => Articles(articles)
  }

  /**
   * The route answers 502 exactly when the fetch failed, the body did not
   * parse, the body is `null`, its `feed` is falsy, its `feed` is not an
   * array, or reshaping one of the items throws.
   */
  lemma BadGatewayExactly(upstream: Upstream, now: string)
    ensures HandleNews(upstream, now).BadGateway? <==>
      || upstream == FetchFailed
      || upstream == Received(None)
      || (upstream.Received? && upstream.parsed.Some? &&
          var raw := upstream.parsed.value;
          var feed := Lookup(raw, "feed");
          || raw.JNull?
          || !Truthy(feed)
          || !feed.value.JArr?
          || ReshapeFeed(feed.value.items, now).Failure?)
    ensures HandleNews(upstream, now).Status() == 502 <==> HandleNews(upstream, now).BadGateway?
  {
  }

  /**
   * Any non-null parsed body whose `feed` is falsy, absent among others
   * (for an array, string, number or boolean body it always is), is
   * answered with its `Error Message` when that is truthy, otherwise with
   * the generic message.
   */
  lemma MissingFeed(raw: Json, now: string)
    requires !raw.JNull? && !Truthy(Lookup(raw, "feed"))
    ensures HandleNews(Received(Some(raw)), now) == BadGateway(Or(Lookup(raw, "Error Message"), JStr(InvalidResponseMessage)))
  {
  }

  /** A parsed `null`, or a truthy `feed` that is not an array, throws inside the `try` and is answered as a bad response. */
  lemma UnreadableBody(raw: Json, now: string)
    requires raw.JNull? || (raw.JObj? && "feed" in raw.fields && Truthy(Some(raw.fields["feed"])) && !raw.fields["feed"].JArr?)
    ensures HandleNews(Received(Some(raw)), now) == BadGateway(JStr(BadResponseMessage))
  {
  }

  /**
   * An item that throws while the feed is mapped (a `null` item, or a
   * truthy `time_published` that is not a string) is caught, and the route
   * answers as for any other bad response.
   */
  lemma ItemThrows(fields: map<string, Json>, items: seq<Json>, now: string)
    requires "feed" in fields && fields["feed"] == JArr(items) && !Reshapable(items, now)
    ensures HandleNews(Received(Some(JObj(fields))), now) == BadGateway(JStr(BadResponseMessage))
  {
    ArticlesFollowFeed(fields, items, now);
  }

  /** Whether every item of a feed array can be reshaped without throwing. */
  predicate Reshapable(items: seq<Json>, now: string)
  {
    forall i :: 0 <= i < |items| ==>
      !items[i].JNull? && ConvertAVTime(Lookup(items[i], "time_published"), now).Success?
  }

  /**
   * The route answers with articles exactly when `feed` is an array whose
   * items all reshape; the articles then follow the feed one for one, in
   * order: the title and url are copied, `source.name` is the item's
   * `source` or "Alpha Vantage" when that is falsy, `publishedAt` is the
   * converted `time_published`, and description and content are both the
   * item's `summary`.
   */
  lemma ArticlesFollowFeed(fields: map<string, Json>, items: seq<Json>, now: string)
    requires "feed" in fields && fields["feed"] == JArr(items)
    ensures HandleNews(Received(Some(JObj(fields))), now).Articles? <==> Reshapable(items, now)
    ensures var r := HandleNews(Received(Some(JObj(fields))), now);
      r.Articles? ==>
        && |r.articles| == |items|
        && forall i :: 0 <= i < |items| ==>
             var item, a := items[i], r.articles[i];
             && a.title == Lookup(item, "title")
             && a.url == Lookup(item, "url")
             && a.sourceName == (if Truthy(Lookup(item, "source")) then item.fields["source"] else JStr(DefaultSource))
             && Success(a.publishedAt) == ConvertAVTime(Lookup(item, "time_published"), now)
             && a.description == Lookup(item, "summary")
             && a.content == Lookup(item, "summary")
  {
    var r := HandleNews(Received(Some(JObj(fields))), now);
    assert Reshapable(items, now) <==> ReshapeFeed(items, now).Success?;
    if r.Articles? {
      forall i | 0 <= i < |items|
        ensures Reshape(items[i], now) == Success(r.articles[i])
      {
      }
    }
  }

  /** A one-item feed with every field present. */
  lemma NewsExample(now: string)
    ensures var item := JObj(map["title" := JStr("T"), "url" := JStr("U"), "source" := JStr("S"),
                                 "time_published" := JStr("20240101T120000"), "summary" := JStr("D")]);
      HandleNews(Received(Some(JObj(map["feed" := JArr([item])]))), now)
        == Articles([Article(Some(JStr("T")), Some(JStr("U")), JStr("S"), "2024-01-01T12:00:00",
                             Some(JStr("D")), Some(JStr("D")))])
  {
    var av := "20240101T120000";
    ReformatFields(av);
    assert Field(av, 0, 4) == "2024" && Field(av, 4, 6) == "01" && Field(av, 6, 8) == "01";
    assert Field(av, 9, 11) == "12" && Field(av, 11, 13) == "00" && Field(av, 13, 15) == "00";
    assert "2024" + "-" + "01" + "-" + "01" + "T" + "12" + ":" + "00" + ":" + "00" == "2024-01-01T12:00:00";
  }
}
