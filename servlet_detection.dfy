/**
 * Zuul's ServletDetectionFilter: a PRE filter that always runs and records
 * in the per-request context whether the request came in through Spring's
 * DispatcherServlet (rather than through the ZuulServlet), so that later
 * filters can read that flag without a reference to the request.
 *
 * Zuul's RequestContext is modelled as an object holding the current servlet
 * request, which may be null, and the map of context entries; the servlet
 * request as whether it is Zuul's HttpServletRequestWrapper and the names of
 * the attributes it holds with a non-null value.
 */
module ServletDetection {
  import opened Wrappers

  /** The filter type of every PRE-phase Zuul filter. */
  const PRE_TYPE := "pre"
  /** The position of this filter among the PRE filters (assumed value, see README). */
  const SERVLET_DETECTION_FILTER_ORDER := -3
  /** The context key under which the flag is stored. */
  const IS_DISPATCHER_SERVLET_REQUEST_KEY := "isDispatcherServletRequest"
  /** The request attribute under which DispatcherServlet exposes its web application context. */
  const WEB_APPLICATION_CONTEXT_ATTRIBUTE := "org.springframework.web.servlet.DispatcherServlet.CONTEXT"

  /** The values this model stores in a request context. */
  datatype Value = Flag(b: bool) | Text(s: string) | Number(n: int)

  /** A servlet request as the filter sees it. */
  datatype ServletRequest = ServletRequest(isWrapper: bool, attributes: set<string>)

  /** How run() ends: it returns null, or getAttribute on a null request throws. */
  datatype RunOutcome = ReturnedNull | ThrewNullPointerException

  /** Zuul's per-request context: the request and the entries filters share. */
  class RequestContext {
    var request: Option<ServletRequest>
    var entries: map<string, Value>

    constructor (request: Option<ServletRequest>)
      ensures this.request == request && entries == map[]
    {
      this.request := request;
      entries := map[];
    }

    method Set(key: string, value: Value)
      modifies this
      ensures request == old(request)
      ensures entries == old(entries)[key := value]
    {
      entries := entries[key := value];
    }
  }

  // ---------------------------------------------------------------------
  // Filter metadata
  // ---------------------------------------------------------------------

  function FilterType(): (t: string)
    ensures t == PRE_TYPE
  {
    PRE_TYPE
  }

  function FilterOrder(): (order: int)
    ensures order == SERVLET_DETECTION_FILTER_ORDER
  {
    SERVLET_DETECTION_FILTER_ORDER
  }

  function ShouldFilter(): (run: bool)
    ensures run
  {
    true
  }

  // ---------------------------------------------------------------------
  // Detection
  // ---------------------------------------------------------------------

  /**
   * Whether DispatcherServlet has left its web application context on the
   * request; None when the request is null and getAttribute would throw.
   */
  function IsDispatcherServletRequest(request: Option<ServletRequest>): (fromDispatcher: Option<bool>)
    ensures fromDispatcher.None? <==> request.None?
    ensures fromDispatcher.Some? ==>
      (fromDispatcher.value <==> WEB_APPLICATION_CONTEXT_ATTRIBUTE in request.value.attributes)
  {
    match request
    case None => None
    case Some(r) => Some(WEB_APPLICATION_CONTEXT_ATTRIBUTE in r.attributes)
  }

  /** The flag run() records for a (non-null) `request`. */
  function DetectedFlag(request: ServletRequest): (flag: bool)
    ensures request.isWrapper ==> !flag
    ensures flag ==> WEB_APPLICATION_CONTEXT_ATTRIBUTE in request.attributes
  {
    !request.isWrapper && IsDispatcherServletRequest(Some(request)).value
  }

  /** The context entries after run(), given those before and the current (non-null) request. */
  function AfterRun(entries: map<string, Value>, request: ServletRequest): (after: map<string, Value>)
    ensures after.Keys == entries.Keys + {IS_DISPATCHER_SERVLET_REQUEST_KEY}
  {
    entries[IS_DISPATCHER_SERVLET_REQUEST_KEY := Flag(DetectedFlag(request))]
  }

  /** All four combinations: the flag is set only for an unwrapped request carrying the attribute. */
  lemma DetectedFlagTruthTable(request: ServletRequest)
    ensures request.isWrapper ==> !DetectedFlag(request)
    ensures !request.isWrapper && WEB_APPLICATION_CONTEXT_ATTRIBUTE in request.attributes ==> DetectedFlag(request)
    ensures !request.isWrapper && WEB_APPLICATION_CONTEXT_ATTRIBUTE !in request.attributes ==> !DetectedFlag(request)
  {
  }

  /** After run() the flag is present, and it is the detected value. */
  lemma AfterRunSetsFlag(entries: map<string, Value>, request: ServletRequest)
    ensures IS_DISPATCHER_SERVLET_REQUEST_KEY in AfterRun(entries, request)
    ensures AfterRun(entries, request)[IS_DISPATCHER_SERVLET_REQUEST_KEY].Flag?
    ensures AfterRun(entries, request)[IS_DISPATCHER_SERVLET_REQUEST_KEY].b
        <==> !request.isWrapper && WEB_APPLICATION_CONTEXT_ATTRIBUTE in request.attributes
  {
  }

  /** run() leaves every other key as it was: present or absent, with the same value. */
  lemma AfterRunFrame(entries: map<string, Value>, request: ServletRequest, key: string)
    requires key != IS_DISPATCHER_SERVLET_REQUEST_KEY
    ensures key in AfterRun(entries, request) <==> key in entries
    ensures key in entries ==> AfterRun(entries, request)[key] == entries[key]
  {
  }

  /** The outcome depends only on the request: running twice is running once. */
  lemma AfterRunIdempotent(entries: map<string, Value>, request: ServletRequest)
    ensures AfterRun(AfterRun(entries, request), request) == AfterRun(entries, request)
  {
  }

  /**
   * run(): record the flag in the context and return null. A wrapper is
   * tested first (a null request is not one); a null request then makes the
   * attribute lookup throw before any entry is written.
   */
  method Run(ctx: RequestContext) returns (outcome: RunOutcome)
    modifies ctx
    ensures ctx.request == old(ctx.request)
    ensures old(ctx.request).None? ==>
      outcome == ThrewNullPointerException && ctx.entries == old(ctx.entries)
    ensures old(ctx.request).Some? ==>
      outcome == ReturnedNull && ctx.entries == AfterRun(old(ctx.entries), old(ctx.request).value)
  {
    var request := ctx.request;
    var isWrapper := request.Some? && request.value.isWrapper;
    if !isWrapper {
      var fromDispatcher := IsDispatcherServletRequest(request);
      if fromDispatcher.None? {
        return ThrewNullPointerException;
      }
      if fromDispatcher.value {
        ctx.Set(IS_DISPATCHER_SERVLET_REQUEST_KEY, Flag(true));
      } else {
        ctx.Set(IS_DISPATCHER_SERVLET_REQUEST_KEY, Flag(false));
      }
    } else {
      ctx.Set(IS_DISPATCHER_SERVLET_REQUEST_KEY, Flag(false));
    }
    outcome := ReturnedNull;
  }
}
