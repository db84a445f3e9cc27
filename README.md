# Spring Cloud Netflix: Hystrix health and Zuul servlet detection

This project models two decision points of Spring Cloud Netflix and proves
what they promise.

- **Hystrix health indicator** (`HystrixHealth`, `hystrix_health.dfy`).
  `doHealthCheck` walks the registered Hystrix command metrics in order. For
  each one it looks up the command's circuit breaker by command key. When the
  breaker exists and is open, it appends `"<group>::<key>"` to a list. Then it
  sets the health status: the custom status `CIRCUIT_OPEN` plus the detail
  `openCircuitBreakers` (the list) when the list is non-empty, `UP` otherwise.
  The loop is the method `CollectOpenCircuitBreakers`, proved against the
  function `OpenCircuitBreakers`. The builder update is `DoHealthCheck`, proved
  against `HealthCheck`. The lemmas show what the list is. It is the filter
  of the open-breaker positions followed by the map to names, in iteration
  order. That holds for any increasing enumeration of those positions. It is
  empty exactly when no breaker is open, and never longer than the metrics.
- **Zuul servlet detection filter** (`ServletDetection`,
  `servlet_detection.dfy`). A PRE filter that always runs. Its `run` writes one
  boolean flag into the request context. The flag is true iff the request is
  not Zuul's `HttpServletRequestWrapper` and carries DispatcherServlet's
  web-application-context attribute. `Run` is a method on a `RequestContext`
  object holding the context map and the request, which may be null. A null
  request is not a wrapper, so the attribute lookup runs on it and throws
  before any entry is written. Its contract ties the new map to `AfterRun`
  of the old one. The lemmas give the flag's truth table, show the key is
  always present afterwards, show that no other key changes, and show that
  running twice equals running once.

Foreign inputs are parameters. The Hystrix metrics registry is a sequence of
`CommandMetrics(group, key)` in iteration order. The circuit-breaker factory is
a map from command key name to that breaker's `isOpen()` answer; a missing key
is a `null` breaker. The servlet request is whether it is a wrapper plus the
set of attribute names with a non-null value.

Where the comments and the code disagree, the model follows the code. The
class comment of `HystrixHealthIndicator` says the status is left unchanged,
and the inline comment says `OUT_OF_SERVICE`. The code sets the custom status
`CIRCUIT_OPEN` when a breaker is open and `UP` otherwise.

The constants `PRE_TYPE`, `SERVLET_DETECTION_FILTER_ORDER` and
`IS_DISPATCHER_SERVLET_REQUEST_KEY` come from `FilterConstants`.
FilterConstants.java is not part of this model, so their values (`"pre"`,
`-3`, `"isDispatcherServletRequest"`) are assumed. No property proved here
depends on them, and no ordering against other filters is claimed.
`WEB_APPLICATION_CONTEXT_ATTRIBUTE` is DispatcherServlet's class name followed
by `.CONTEXT`.

## Model

| member | source | states |
|---|---|---|
| HystrixHealth.BreakerName | spring-cloud-netflix-hystrix/src/main/java/org/springframework/cloud/netflix/hystrix/HystrixHealthIndicator.java:50-51 | a reported name is exactly the group name, then `::`, then the command key name |
| HystrixHealth.IsOpen | spring-cloud-netflix-hystrix/src/main/java/org/springframework/cloud/netflix/hystrix/HystrixHealthIndicator.java:47-49 | a metric whose breaker lookup returns null never qualifies; one with a breaker qualifies iff that breaker's isOpen() is true |
| HystrixHealth.OpenCircuitBreakers | spring-cloud-netflix-hystrix/src/main/java/org/springframework/cloud/netflix/hystrix/HystrixHealthIndicator.java:43-53 | the list the loop builds has at most one entry per metric |
| HystrixHealth.OpenCircuitBreakersEmptyIff | spring-cloud-netflix-hystrix/src/main/java/org/springframework/cloud/netflix/hystrix/HystrixHealthIndicator.java:43-53 | the list is empty iff no metric's breaker exists and is open |
| HystrixHealth.OpenPositionsEnumerate | spring-cloud-netflix-hystrix/src/main/java/org/springframework/cloud/netflix/hystrix/HystrixHealthIndicator.java:46-49 | the positions that qualify are listed in increasing order, and a position is listed iff its breaker was found and is open |
| HystrixHealth.OpenCircuitBreakersAtPositions | spring-cloud-netflix-hystrix/src/main/java/org/springframework/cloud/netflix/hystrix/HystrixHealthIndicator.java:46-52 | the list is, one for one and in order, the names of the metrics at the qualifying positions (filter, then map) |
| HystrixHealth.OpenCircuitBreakersCharacterized | spring-cloud-netflix-hystrix/src/main/java/org/springframework/cloud/netflix/hystrix/HystrixHealthIndicator.java:43-53 | for any increasing enumeration of the open-breaker positions, the list is the names at those positions: it starts empty, has one entry per open breaker, and keeps iteration order |
| HystrixHealth.OpenCircuitBreakersSound | spring-cloud-netflix-hystrix/src/main/java/org/springframework/cloud/netflix/hystrix/HystrixHealthIndicator.java:49-51 | every reported name is the name of a metric whose breaker is non-null and open |
| HystrixHealth.OpenCircuitBreakersComplete | spring-cloud-netflix-hystrix/src/main/java/org/springframework/cloud/netflix/hystrix/HystrixHealthIndicator.java:46-52 | every metric whose breaker is open is reported |
| HystrixHealth.HealthCheck | spring-cloud-netflix-hystrix/src/main/java/org/springframework/cloud/netflix/hystrix/HystrixHealthIndicator.java:55-62 | status is CIRCUIT_OPEN iff some breaker is open and UP iff none is; with one open the detail `openCircuitBreakers` is set and non-empty; with none open the details are untouched; no other detail changes |
| HystrixHealth.HealthCheckDetail | spring-cloud-netflix-hystrix/src/main/java/org/springframework/cloud/netflix/hystrix/HystrixHealthIndicator.java:56-58 | with a breaker open, the `openCircuitBreakers` detail equals the collected list |
| HystrixHealth.CollectOpenCircuitBreakers | spring-cloud-netflix-hystrix/src/main/java/org/springframework/cloud/netflix/hystrix/HystrixHealthIndicator.java:43-53 | the loop's list equals `OpenCircuitBreakers` of the metrics and registry |
| HystrixHealth.DoHealthCheck | spring-cloud-netflix-hystrix/src/main/java/org/springframework/cloud/netflix/hystrix/HystrixHealthIndicator.java:42-63 | the builder afterwards holds `HealthCheck` of the metrics, registry and its previous contents |
| HystrixHealth.RepeatedHealthCheck | spring-cloud-netflix-hystrix/src/main/java/org/springframework/cloud/netflix/hystrix/HystrixHealthIndicator.java:46-49 | given that isOpen() is a pure read (see Left out), two checks over the same registries agree, and report CIRCUIT_OPEN iff a breaker is open |
| HystrixHealth.HealthBuilder.SetStatus | spring-cloud-netflix-hystrix/src/main/java/org/springframework/cloud/netflix/hystrix/HystrixHealthIndicator.java:57 | `builder.status(s)` replaces the status and keeps the details |
| HystrixHealth.HealthBuilder.WithDetail | spring-cloud-netflix-hystrix/src/main/java/org/springframework/cloud/netflix/hystrix/HystrixHealthIndicator.java:57-58 | `withDetail(k, v)` sets detail `k` to `v` and keeps the status and other details |
| HystrixHealth.HealthBuilder.Up | spring-cloud-netflix-hystrix/src/main/java/org/springframework/cloud/netflix/hystrix/HystrixHealthIndicator.java:61 | `up()` sets status UP and keeps the details |
| ServletDetection.FilterType | spring-cloud-netflix-zuul/src/main/java/org/springframework/cloud/netflix/zuul/filters/pre/ServletDetectionFilter.java:44-47 | the filter type is always PRE |
| ServletDetection.FilterOrder | spring-cloud-netflix-zuul/src/main/java/org/springframework/cloud/netflix/zuul/filters/pre/ServletDetectionFilter.java:49-56 | the order is the fixed constant SERVLET_DETECTION_FILTER_ORDER |
| ServletDetection.ShouldFilter | spring-cloud-netflix-zuul/src/main/java/org/springframework/cloud/netflix/zuul/filters/pre/ServletDetectionFilter.java:58-61 | the filter runs for every request |
| ServletDetection.IsDispatcherServletRequest | spring-cloud-netflix-zuul/src/main/java/org/springframework/cloud/netflix/zuul/filters/pre/ServletDetectionFilter.java:78-81 | a non-null request comes from DispatcherServlet iff it carries the web-application-context attribute; on a null request the lookup throws |
| ServletDetection.DetectedFlag | spring-cloud-netflix-zuul/src/main/java/org/springframework/cloud/netflix/zuul/filters/pre/ServletDetectionFilter.java:67-69 | a wrapped request is never flagged, and a flagged request carries the attribute |
| ServletDetection.AfterRun | spring-cloud-netflix-zuul/src/main/java/org/springframework/cloud/netflix/zuul/filters/pre/ServletDetectionFilter.java:67-73 | after run the context holds exactly the keys it held before plus `isDispatcherServletRequest` |
| ServletDetection.RequestContext.Set | spring-cloud-netflix-zuul/src/main/java/org/springframework/cloud/netflix/zuul/filters/pre/ServletDetectionFilter.java:69-72 | `ctx.set(k, v)` maps `k` to `v`, keeps every other entry and the request |
| ServletDetection.DetectedFlagTruthTable | spring-cloud-netflix-zuul/src/main/java/org/springframework/cloud/netflix/zuul/filters/pre/ServletDetectionFilter.java:67-81 | a wrapped request is false even with the attribute; an unwrapped one is true iff it carries the web-application-context attribute |
| ServletDetection.AfterRunSetsFlag | spring-cloud-netflix-zuul/src/main/java/org/springframework/cloud/netflix/zuul/filters/pre/ServletDetectionFilter.java:67-73 | after run the key is always present, holding a boolean that is true iff the request is unwrapped and has the attribute |
| ServletDetection.AfterRunFrame | spring-cloud-netflix-zuul/src/main/java/org/springframework/cloud/netflix/zuul/filters/pre/ServletDetectionFilter.java:64-75 | run changes no key other than `isDispatcherServletRequest` |
| ServletDetection.AfterRunIdempotent | spring-cloud-netflix-zuul/src/main/java/org/springframework/cloud/netflix/zuul/filters/pre/ServletDetectionFilter.java:64-75 | running the filter twice on one request leaves the context as running it once |
| ServletDetection.Run | spring-cloud-netflix-zuul/src/main/java/org/springframework/cloud/netflix/zuul/filters/pre/ServletDetectionFilter.java:63-81 | with a request present, run returns null and leaves the entries equal to `AfterRun` of the old ones; with a null request the attribute lookup throws NullPointerException and no entry is written; the request is kept |

## Left out

- The Hystrix circuit-breaker state machine and its static registries: foreign library code. Only the answers of the breaker lookup and `isOpen()` are inputs, and `isOpen()` is taken to be a pure read.
- Spring's `AbstractHealthIndicator.health()`, which creates the builder and maps an exception to DOWN: not in the modelled source.
- The Zuul filter engine, the thread-local mechanics of `RequestContext`, and servlet attribute storage: foreign framework code, partly concurrent. The context is a plain object owned by one request.
- Health details other than the `openCircuitBreakers` list: Spring's details map holds arbitrary Java objects; here every detail value is a list of strings.
- `RequestContext` values other than the flag are stand-ins (`Text`, `Number`) for arbitrary Java objects.
- ZuulController's `try/finally` around `RequestContext.unset()`: it only wraps a foreign servlet call.
- RibbonApplicationContextInitializer's warm-up loop: it exists only for its side effect on a foreign client factory.
- RouteLocator: an interface with no implementation, so there is no matching policy to model.
