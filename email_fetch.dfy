/**
 * `fetch_emails(access_token, date_str)`: the one-day query window sent to the
 * Microsoft Graph messages endpoint, and what the function returns for each
 * outcome of the request. The HTTP call itself is a parameter `send`.
 */
module EmailFetch {
  import opened Wrappers
  import opened MailRecord
  import opened Calendar
  import opened DateParse

  const MessagesUrl := "https://graph.microsoft.com/v1.0/me/messages"
  const SelectedFields := "subject,bodyPreview,receivedDateTime,from"
  const PageSize := 100

  /** The query parameters `$filter`, `$select` and `$top`. */
  datatype Params = Params(filter: string, select: string, top: int)

  datatype Request = Request(url: string, authorization: string, params: Params)

  /**
   * What `requests.get` followed by `raise_for_status()` and `json()` produced:
   * any RequestException, or a JSON object whose `value` key may be absent.
   */
  datatype Response = RequestFailed | Json(value: Option<seq<Mail>>)

  /** Exceptions `fetch_emails` does not catch. */
  datatype FetchError =
    | InvalidDate(reason: ParseError)   // ValueError from strptime
    | DateOverflow                      // OverflowError from adding a day to 9999-12-31

  /** Either an exception escaped before any request, or the request was sent and a list returned. */
  datatype Fetch = Raised(error: FetchError) | Returned(sent: Request, emails: seq<Mail>)

  /** The day `first` and the day after it. */
  datatype Window = Window(first: Date, next: Date) {
    ghost predicate Valid() {
      ValidDate(first) && ValidDate(next)
    }
  }

  /** The window of `date_str`: the parsed date and the calendar day after it. */
  function DayWindow(dateStr: string): (r: Result<Window, FetchError>)
    ensures r.Ok? ==> r.value.Valid()
    ensures r.Ok? ==> ParseDate(dateStr) == Ok(r.value.first)
    ensures r.Ok? ==> Ordinal(r.value.next) == Ordinal(r.value.first) + 1
    ensures r.Err? ==> ParseDate(dateStr).Err? || ParseDate(dateStr) == Ok(LastDate)
    ensures r.Err? && ParseDate(dateStr).Err? ==> r.error == InvalidDate(ParseDate(dateStr).error)
    ensures r.Err? && ParseDate(dateStr).Ok? ==> r.error == DateOverflow
  {
    match ParseDate(dateStr)
    case Err(e) => Err(InvalidDate(e))
    case Ok(d) =>
      match NextDay(d)
      case None => Err(DateOverflow)
      case Some(n) => Ok(Window(d, n))
  }

  /** `start_of_day`: midnight of the day, UTC. */
  function StartOfDay(w: Window): (s: string)
    requires w.Valid()
    ensures |s| == 20 && s[..10] == IsoDate(w.first) && s[10..] == "T00:00:00Z"
  {
    IsoMidnight(w.first) + "Z"
  }

  /** `end_of_day`: midnight of the following day, UTC. */
  function EndOfDay(w: Window): (s: string)
    requires w.Valid()
    ensures |s| == 20 && s[..10] == IsoDate(w.next) && s[10..] == "T00:00:00Z"
  {
    IsoMidnight(w.next) + "Z"
  }

  /** Messages received at or after the start and strictly before the end. */
  function Filter(w: Window): (f: string)
    requires w.Valid()
    ensures |f| == 85
    ensures f[..20] == "receivedDateTime ge " && f[20..40] == StartOfDay(w)
    ensures f[40..65] == " and receivedDateTime lt " && f[65..] == EndOfDay(w)
  {
    "receivedDateTime ge " + StartOfDay(w) + " and receivedDateTime lt " + EndOfDay(w)
  }

  function QueryParams(w: Window): (p: Params)
    requires w.Valid()
    ensures p.select == SelectedFields && p.top == PageSize
  {
    Params(Filter(w), SelectedFields, PageSize)
  }

  function MessagesRequest(accessToken: string, w: Window): (r: Request)
    requires w.Valid()
    ensures r.url == MessagesUrl && r.authorization == "Bearer " + accessToken
    ensures r.params.filter == Filter(w) && r.params.select == SelectedFields
    ensures r.params.top == PageSize
  {
    Request(MessagesUrl, "Bearer " + accessToken, QueryParams(w))
  }

  /** `data.get("value", [])` on success, `[]` after any request failure. */
  function Extract(resp: Response): (emails: seq<Mail>)
    ensures resp.RequestFailed? ==> emails == []
    ensures resp.Json? && resp.value.None? ==> emails == []
    ensures resp.Json? && resp.value.Some? ==> emails == resp.value.value
  {
    match resp
    case RequestFailed => []
    case Json(v) => v.GetOr([])
  }

  function FetchEmails(accessToken: string, dateStr: string, send: Request -> Response): (r: Fetch)
    ensures r.Raised? <==> DayWindow(dateStr).Err?
    ensures r.Raised? ==> r.error == DayWindow(dateStr).error
    ensures r.Returned? ==> r.sent == MessagesRequest(accessToken, DayWindow(dateStr).value)
    ensures r.Returned? ==> r.sent.params.select == SelectedFields && r.sent.params.top == PageSize
    ensures r.Returned? ==> r.emails == Extract(send(r.sent))
  {
    match DayWindow(dateStr)
    case Err(e) => Raised(e)
    case Ok(w) =>
      var req := MessagesRequest(accessToken, w);
      Returned(req, Extract(send(req)))
  }

  /** A malformed date raises before any request is built or sent. */
  lemma MalformedDateSendsNothing(accessToken: string, dateStr: string, send: Request -> Response)
    requires ParseDate(dateStr).Err?
    ensures FetchEmails(accessToken, dateStr, send) == Raised(InvalidDate(ParseDate(dateStr).error))
  {
  }

  /** For a date written `YYYY-MM-DD`, the filter is built from the input string itself. */
  lemma CanonicalFilter(dateStr: string)
    requires DayWindow(dateStr).Ok?
    requires |dateStr| == 10 && dateStr[8] != ' '
    ensures StartOfDay(DayWindow(dateStr).value) == dateStr + "T00:00:00Z"
    ensures Filter(DayWindow(dateStr).value) ==
            "receivedDateTime ge " + (dateStr + "T00:00:00Z") + " and receivedDateTime lt "
            + (IsoDate(DayWindow(dateStr).value.next) + "T00:00:00Z")
  {
    var w := DayWindow(dateStr).value;
    IsoDateOfParsed(dateStr);
    assert IsoDate(w.first) == dateStr;
    assert IsoMidnight(w.first) + "Z" == dateStr + "T00:00:00Z";
    assert IsoMidnight(w.next) + "Z" == IsoDate(w.next) + "T00:00:00Z";
  }

  /**
   * The window covers exactly one calendar day: its end is the one valid date
   * whose day number follows the start's.
   */
  lemma WindowIsOneDay(dateStr: string, e: Date)
    requires DayWindow(dateStr).Ok? && ValidDate(e)
    ensures var w := DayWindow(dateStr).value;
            Ordinal(w.first) < Ordinal(w.next) &&
            (w.next == e <==> Ordinal(e) == Ordinal(w.first) + 1)
  {
    var w := DayWindow(dateStr).value;
    NextDayUnique(w.first, e);
    NextDayUnique(w.first, w.next);
  }

  /** Every valid date except the last one gets a window starting on that date. */
  lemma EveryDateHasWindow(d: Date)
    requires ValidDate(d) && d != LastDate
    ensures DayWindow(IsoDate(d)).Ok?
    ensures StartOfDay(DayWindow(IsoDate(d)).value) == IsoDate(d) + "T00:00:00Z"
  {
    ParseIsoDate(d);
  }

  /**
   * A failed request and a day without mail return the same thing: the
   * caller cannot tell them apart by the return value.
   */
  lemma FailureLooksLikeEmptyDay(accessToken: string, dateStr: string,
                                 failing: Request -> Response, empty: Request -> Response)
    requires DayWindow(dateStr).Ok?
    requires failing(MessagesRequest(accessToken, DayWindow(dateStr).value)) == RequestFailed
    requires empty(MessagesRequest(accessToken, DayWindow(dateStr).value)) == Json(Some([]))
    ensures FetchEmails(accessToken, dateStr, failing) == FetchEmails(accessToken, dateStr, empty)
    ensures FetchEmails(accessToken, dateStr, failing).emails == []
  {
  }
}
