/** The application-wide HTTP error handlers (eq_cir_management_ui/errors/routes.py).
    Rendering is reduced to the template name and page title handed to the
    renderer, and logging to the record `log_exception` emits. */
module ErrorHandlers {
  import opened Strings
  import opened Wrappers

  datatype Severity = Warning | Error

  /** The one structured log call of `log_exception`: the event
      "an error has occurred" with the request url and the status code. */
  datatype LogRecord = LogRecord(severity: Severity, event: string, url: string, statusCode: int)

  function LogException(url: string, statusCode: int): (r: LogRecord)
    ensures r.severity == Warning <==> statusCode < 500
    ensures r.event == "an error has occurred" && r.url == url && r.statusCode == statusCode
  {
    LogRecord(if statusCode < 500 then Warning else Error, "an error has occurred", url, statusCode)
  }

  /** What a handler does: one log record, then `render_template(template,
      page_title=pageTitle)` returned with `status`. */
  datatype ErrorResponse = ErrorResponse(log: LogRecord, template: string, pageTitle: string, status: int)

  const HANDLED_CODES: set<int> := {400, 401, 403, 404, 405, 500}

  /** The handler registered for `code`, applied to a request for `url`;
      None for a code with no handler. 400 deliberately borrows the 500
      page and 405 the 404 page. */
  function HandleError(code: int, url: string): (r: Option<ErrorResponse>)
    ensures r.Some? <==> code in HANDLED_CODES
    ensures r.Some? ==> r.value.status == code && r.value.log == LogException(url, code)
    ensures r.Some? ==> r.value.pageTitle == match PageFor(code)
      case 401 => "Unauthorised"
      case 403 => "Forbidden"
      case 404 => "Page not found"
      case _ => "Internal Server Error"
  {
    match code
    case 400 => Some(ErrorResponse(LogException(url, 400), "errors/500.html", "Internal Server Error", 400))
    case 401 => Some(ErrorResponse(LogException(url, 401), "errors/401.html", "Unauthorised", 401))
    case 403 => Some(ErrorResponse(LogException(url, 403), "errors/403.html", "Forbidden", 403))
    case 404 => Some(ErrorResponse(LogException(url, 404), "errors/404.html", "Page not found", 404))
    case 405 => Some(ErrorResponse(LogException(url, 405), "errors/404.html", "Page not found", 405))
    case 500 => Some(ErrorResponse(LogException(url, 500), "errors/500.html", "Internal Server Error", 500))
    case _ => None
  }

  /** Exactly the six codes have a handler; each returns the status it
      handles and logs that same status, at warning below 500 and at error
      otherwise. */
  lemma HandlersKeepStatus(code: int, url: string)
    ensures HandleError(code, url).Some? <==> code in HANDLED_CODES
    ensures HandleError(code, url).Some? ==>
      var r := HandleError(code, url).value;
      && r.status == code
      && r.log.statusCode == code
      && r.log.url == url
      && (r.log.severity == Warning <==> code < 500)
  {
  }

  /** The page for `code`: `errors/<code>.html`, except that 400 uses the 500
      page and 405 the 404 page. */
  function PageFor(code: int): int {
    if code == 400 then 500 else if code == 405 then 404 else code
  }

  lemma {:induction false} DecimalOfThreeDigits(n: nat)
    requires 100 <= n < 1000
    ensures DecimalString(n) == [DigitChar(n / 100), DigitChar(n / 10 % 10), DigitChar(n % 10)]
  {
    assert DecimalString(n / 10) == DecimalString(n / 10 / 10) + [DigitChar(n / 10 % 10)];
    assert n / 10 / 10 == n / 100;
  }

  /** Every handler renders `errors/<page>.html`, where the page is the
      status code itself except for the two borrowed pages. */
  lemma TemplateNames(code: int, url: string)
    requires code in HANDLED_CODES
    ensures HandleError(code, url).value.template == "errors/" + DecimalString(PageFor(code)) + ".html"
  {
    var page := PageFor(code);
    DecimalOfThreeDigits(page);
    if page == 401 {
      assert DecimalString(page) == "401";
    } else if page == 403 {
      assert DecimalString(page) == "403";
    } else if page == 404 {
      assert DecimalString(page) == "404";
    } else {
      assert page == 500;
      assert DecimalString(page) == "500";
    }
  }

  /** The page title is a function of the template: both renders of the 500
      page say "Internal Server Error", both renders of the 404 page say
      "Page not found". */
  lemma TitleFollowsTemplate(c1: int, c2: int, url1: string, url2: string)
    requires HandleError(c1, url1).Some? && HandleError(c2, url2).Some?
    requires HandleError(c1, url1).value.template == HandleError(c2, url2).value.template
    ensures HandleError(c1, url1).value.pageTitle == HandleError(c2, url2).value.pageTitle
  {
  }

  /** The two borrowed pages keep their own status codes. */
  lemma BorrowedPages(url: string)
    ensures HandleError(400, url).value.template == HandleError(500, url).value.template
    ensures HandleError(400, url).value.pageTitle == "Internal Server Error"
    ensures HandleError(405, url).value.template == HandleError(404, url).value.template
    ensures HandleError(405, url).value.pageTitle == "Page not found"
    ensures HandleError(400, url).value.status != HandleError(500, url).value.status
    ensures HandleError(405, url).value.status != HandleError(404, url).value.status
  {
  }
}
