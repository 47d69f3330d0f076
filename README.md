# passz in Dafny

passz is a small Python 2 script that flips the status of test executions in
Zapi, the test-management API that sits on top of Jira. It exists in several
drafts. It resolves a configured project and test cycle to ids and pages
through the cycle's executions. It then picks out the executions with a given
status and a set of required labels and sends a status update for each one.
Every request carries a JWT. The token's `qsh` claim hashes a canonical
string `METHOD&uri&query`. The token is written into a module-wide header
dictionary that every request helper updates in place.

This project models that logic:

- `Statuses`: the `STATUSES` table and its independent reverse reading.
- `Text`: Python's `str.split` on one character, and `join`.
- `Search`: first-match lookup and the order-preserving filter, i.e. Python 2's `filter` and `filter(...)[0]`.
- `Signing`:
  - the canonical string of each kind of request, and how a service reads it back;
  - the JWT claims;
  - the token, built from injected SHA-256 and HS256 primitives.
- `Http`:
  - the URLs;
  - the class `Gateway`, whose `headers` field is `DEFAULT_HEADERS`;
  - the five request helpers;
  - the response classification.
- `Executions`: execution records, the label set and the status-and-labels match rule.
- `Resolver`: resolving a project and a cycle by name, and the earlier draft's `get_cycle`.
- `Pagination`:
  - the offset-paginated sweep `get_all_executions_in_cycle`;
  - the earlier draft's fused sweep-and-filter `get_executions_by_status_and_label`;
  - both as loops, each proved against the specification functions `Sweep` and `Trace`.
- `Updates`: the single and bulk status-update bodies, and the PUT and POST that send them.
- `Catalog`:
  - the class `Cycle` with its cached executions and its two queries;
  - `Open`, which does what `Cycle.__init__` does.

The three drafts of the request helpers (`passz.py`, `passz/utils.py` and
`utils.py`) differ only in names and in which helpers they define, so they are
modelled once. A row below cites one draft; the same lines exist in the other
drafts.

## Model

| member | source | states |
|---|---|---|
| `Statuses.Code` | passz/utils.py:28-34 | a status name has a code exactly when it is one of PASS, FAIL, WIP, BLOCKED, UNEXECUTED, and every code is one of 1, 2, 3, 4, -1; an unknown name is the KeyError case |
| `Statuses.CodeNameOf` | passz.py:28-34 | the table agrees with its reverse reading in both directions, so each code names exactly one status |
| `Statuses.CodesDistinct` | utils.py:19-25 | two different known names never share a code |
| `Text.Split` | passz/cycle.py:121 | `split(",")` returns at least one part, and no part contains the separator |
| `Text.JoinSplit` | passz/utils.py:58 | joining the parts of a split with the separator gives back the original string |
| `Search.FirstIndex` | passz/cycle.py:37-42 | returns no index iff no element satisfies the predicate; otherwise the index of the first element that does |
| `Search.FirstWhere` | passz/cycle.py:132-137 | returns nothing iff no element satisfies the predicate; otherwise the element at the first index that does |
| `Search.Where` | passz.py:100-103 | the result is no longer than the input; every element it holds comes from the input and satisfies the predicate; every input element that satisfies it is kept |
| `Search.WhereConcat` | passz.py:99-103 | filtering a concatenation is the concatenation of the filtered parts, so pages can be filtered one at a time in order |
| `Signing.Canonical` | passz/utils.py:58-88 | GET with a query and DELETE sign `M&uri&query`; GET without parameters, POST and PUT sign `M&uri&` with an empty third field |
| `Signing.CanonicalFields` | utils.py:52-67 | splitting a canonical string on '&' yields the method name, the uri and then the split query |
| `Signing.CanonicalRoundTrip` | passz.py:124-143 | when the uri holds no '&', reading the canonical string back gives exactly the method, uri and signed query it was built from |
| `Signing.NoParamsSignsEmptyQuery` | passz/utils.py:64-65 | `get_request_no_params(uri)` signs the same string as a GET with an empty query |
| `Signing.JwtClaims` | passz/utils.py:45-52 | a token expires exactly 3600 seconds after it is issued |
| `Signing.ClaimsAcceptedForOneHour` | passz.py:112-121 | the claims name the login and access key and hash this request's canonical string, so a service accepts them for this request during exactly the hour after `now`; it accepts them for another request only when the two canonical strings hash alike |
| `Signing.GetJwt` | passz/utils.py:45-54 | the token is the HS256 signature, under the secret key, of claims whose subject is the login, whose issuer is the access key, whose hash is that of the canonical string, issued at `now` and expiring at `now + 3600` |
| `Http.AuthorizationValue` | passz/utils.py:58 | the `Authorization` value is `JWT ` followed by exactly the token of the call's canonical string |
| `Http.Url` | passz/utils.py:59-89 | the URL starts with the base URL and the uri; GET with a query and DELETE append exactly `?` plus the signed query; GET without parameters, POST and PUT append nothing |
| `Http.Stamp` | passz/utils.py:58-81 | one helper call overwrites `Authorization` and sets `Content-Type: application/json` for POST and PUT; it adds only those keys, removes none, and keeps every other entry |
| `Http.AccessKeyKept` | passz/utils.py:26 | no sequence of requests removes or changes `zapiAccessKey` |
| `Http.ContentTypeSticky` | passz/utils.py:72-81 | `Content-Type` is present after a sequence of requests iff it was present before or one of them was a POST or PUT; once set, it stays `application/json` through later GETs and DELETEs |
| `Http.LastAuthorizationWins` | utils.py:52-67 | after any non-empty sequence of requests, `Authorization` holds the token of the last one |
| `Http.HandleResponseStatus` | passz/utils.py:94-98 | success iff the status is 200, 201 or 204, and then the response itself; otherwise a failure carrying the URL, the body and the status |
| `Http.Gateway.constructor` | passz/utils.py:26 | the header map starts as just `zapiAccessKey` with the configured access key |
| `Http.Gateway.Send` | passz/utils.py:57-91 | the header map becomes the stamped map; the access-key invariant is kept; the result classifies the server's answer to a request with the call's method, URL, updated headers and body |
| `Http.Gateway.GetRequest` | passz/utils.py:57-61 | only `Authorization` changes, to the token of `GET&uri&query`; the request goes to `base + uri + "?" + query` |
| `Http.Gateway.GetRequestNoParams` | passz/utils.py:64-68 | only `Authorization` changes, to the token of `GET&uri&`; the request goes to `base + uri` |
| `Http.Gateway.PostRequest` | passz/utils.py:71-76 | `Authorization` gets the token of `POST&uri&` and `Content-Type` becomes JSON; the payload goes to `base + uri` |
| `Http.Gateway.PutRequest` | passz/utils.py:79-84 | `Authorization` gets the token of `PUT&uri&` and `Content-Type` becomes JSON; the payload goes to `base + uri` |
| `Http.Gateway.DeleteRequest` | passz/utils.py:87-91 | only `Authorization` changes, to the token of `DELETE&uri&query`; the request goes to `base + uri + "?" + query` |
| `Executions.LabelSet` | passz/cycle.py:120-121 | the parsed label set of an execution is never empty |
| `Executions.Matches` | passz/cycle.py:120-121 | an execution matches iff its status name equals the requested one, every required label is one of the comma-separated parts of `issueLabel`, and some part is not a required label |
| `Executions.Select` | passz/cycle.py:119-122 | the result holds only cached executions that match the status and strict-subset rule, and holds every cached execution that matches |
| `Executions.SelectConcat` | passz.py:99-103 | selecting from a concatenation is the concatenation of the selections, in order |
| `Executions.EqualLabelsNotSelected` | passz/cycle.py:120-121 | an execution whose label set equals the required set is never selected |
| `Executions.ExtraLabelSelected` | passz.py:101-103 | a cached execution with the right status and at least one label beyond the required ones is selected |
| `Executions.EmptyLabelString` | passz/cycle.py:121 | an empty `issueLabel` still yields the one label "" |
| `Executions.NoLabelsSelectsByStatus` | passz/cycle.py:113-114 | with no required labels, the selection is exactly the executions with the requested status, in order |
| `Executions.AppendMatches` | passz/cycle.py:116-122 | the filter loop appends exactly the selection of the items to what was collected, in order |
| `Resolver.GetProjectAndCycle` | passz/cycle.py:33-49 | reports a missing project iff no project has the name, whether or not the cycle exists; reports a missing cycle iff the project exists and no cycle has the name; succeeds iff both names are present, and then the ids come from the first matching project and the first matching cycle, with the cycle name |
| `Resolver.GetCycle` | passz.py:71-82 | a failed `get_cycles()` request is passed through unchanged; over a listing it received, fails, with the cycle name, iff no cycle has the name, and otherwise returns the first cycle that has it |
| `Pagination.Rounds` | passz/cycle.py:97 | the loop body runs once for each of the offsets 0, 50, ..., 50 * (T / 50), and not at all for a negative T |
| `Pagination.GuardAt` | passz.py:99 | after `done` runs, the guard `offset <= total` holds iff runs remain |
| `Pagination.ProgressStep` | passz/cycle.py:97-102 | one run of the loop body while the offset is at most T: either the next request fails and that failure is the sweep's outcome, or the offset advances by exactly 50, the page's items are appended and the next page becomes current |
| `Pagination.GetAllExecutionsInCycle` | passz/cycle.py:89-104 | the loop returns the sweep's cache, or its first failed request, and requests exactly the sweep's offsets |
| `Pagination.GetExecutionsByStatusAndLabel` | passz.py:90-109 | the fused loop returns the status-and-labels selection of the sweep's cache, or the sweep's failure, and requests the same offsets as the plain sweep |
| `Pagination.CollectServed` | passz.py:99-106 | when every later page is served, the rest of the loop collects the pages in offset order and requests offsets 50 apart |
| `Pagination.SweepWhenServed` | passz/cycle.py:93-102 | when every page is served, the cache is the in-order concatenation of the pages at 0, 50, ..., 50 * (T / 50); the offsets requested are 0, 50, ..., 50 * (T / 50 + 1), which is T / 50 + 2 fetches for T >= 0 |
| `Pagination.FirstFetchFails` | passz/cycle.py:94 | a failed first request ends the sweep with that failure after one request |
| `Pagination.OnlyFirstTotalCountCounts` | passz/cycle.py:94-97 | the bound comes from the first page only: servers that agree on the first page and on every later page's items give the same cache and the same requests, whatever `totalCount` their later pages report |
| `Pagination.FullPagesCacheTotal` | passz/cycle.py:96-103 | when the server returns full pages, the cache holds exactly T executions |
| `Updates.ExecutionPath` | passz/cycle.py:73-74 | the path is `PUT_EXECUTION + "/"`, followed by exactly the execution id |
| `Updates.ExecutionStatusBody` | passz/cycle.py:65-72 | fails with the status name iff it is not in the table; otherwise the body's status code reads back as that name, and its four ids are the execution's issue, project, cycle and version ids |
| `Updates.ExecutionIds` | passz/cycle.py:54 | the ids of the executions, one per execution, in input order |
| `Updates.BulkStatusBody` | passz/cycle.py:52-58 | fails with the status name iff it is not in the table; otherwise the body's status reads back as that name and lists the execution ids in input order |
| `Updates.UpdateExecutionStatus` | passz/cycle.py:63-77 | a missing execution sends nothing and changes no header; an unknown status fails before sending; otherwise the body goes by PUT to the execution's path, with the headers that PUT writes |
| `Updates.UpdateBulkExecutionsStatus` | passz.py:45-54 | an unknown status fails before sending; otherwise one POST to `POST_EXECUTIONS` carries the bulk body |
| `Catalog.Cycle.constructor` | passz/cycle.py:24-31 | the names, the resolved ids and the cached executions are stored |
| `Catalog.Cycle.GetExecutionsByStatusAndLabels` | passz/cycle.py:106-124 | the result is the status-and-labels selection of the cache in cache order; with labels omitted, exactly the executions with the status |
| `Catalog.Cycle.GetExecutionByIssueKey` | passz/cycle.py:126-137 | returns nothing iff no cached execution has the key; otherwise the first cached execution that has it |
| `Catalog.Open` | passz/cycle.py:24-31 | a failed metadata request, a missing project or cycle, or a failed page request is the outcome, in that order; otherwise a fresh cycle holds the names, the resolved ids and the full sweep of that cycle's executions |

## Left out

- The HTTP transport (`requests.get/post/put/delete`) is a parameter:
  - a function from a request to a response for the helpers;
  - a function from an offset to a page or a failure for the execution search.
- SHA-256 and `jwt.encode(..., 'HS256')` are uninterpreted functions supplied in `Signing.Crypto`, as is the `.strip().decode()` of the token.
- `time.time()` is a parameter `now`.
- `Signing.JwtClaims`: the code reads the clock twice, and `exp` is computed before `iat`, so `exp - iat` is 3599 when a second boundary falls between the readings; the token is then accepted for one second less than the hour `Signing.ClaimsAcceptedForOneHour` states, never longer. The model takes one reading.
- YAML configuration loading and its missing-file error are left out. The base URL, the API version segment and the credentials are parameters.
- JSON parsing and serialisation are left out:
  - executions, pages and the ZQL field metadata are datatypes;
  - request bodies are records (`Payloads`);
  - a response body is an uninterpreted string.
- A missing key in a parsed JSON object would raise `KeyError` in the source. The model's records always have every field.
- Logging and the creation of the log directory at import time.
- `passz/passz.py` is not part of this model. It is a three-line entry script. The `__main__` blocks are left out for the same reason.
- The query strings of `get_list_of_executions` and `get_cycles`, and the `ZapiCalls` paths of those requests and of `get_zql_fields`, are left out. The catalog and `Resolver.GetCycle` receive their parsed results:
  - the metadata and the cycle listing as a `Result`;
  - the pages through `pages(ids)`.
- `Catalog.Open`: the catalog's page and metadata requests are not routed through a `Gateway`, so their effect on the shared header map is not tracked. Each page request has the effect `Http.Gateway.GetRequest` states. The metadata request goes through `get_request_no_params`, so its effect is the one `Http.Gateway.GetRequestNoParams` states.
- Exceptions are `Errors.Failure` values returned to the caller, not raised.
- `update_execution_status` in `passz.py` has no `None` check. It corresponds to the branch of `Updates.UpdateExecutionStatus` with an execution.
- Whether the bulk endpoint works upstream is not modelled, only the request it builds. The source itself marks that request as not working.

Two consequences of the code are worth stating:

- The loop issues `T / 50 + 2` page fetches for `T >= 0`: the first request, plus one after each of the `T / 50 + 1` loop runs. The last page is fetched and discarded (`Pagination.SweepWhenServed`).
- No execution has an empty label set, because a split never returns an empty list (`Executions.EmptyLabelString`, `Executions.LabelSet`). With no required labels, every execution with the requested status matches.

The strict subset (`<`) in the match rule is kept as written. An execution whose labels equal the required ones does not match (`Executions.EqualLabelsNotSelected`). Whether `<=` was intended is an open question, and nothing here settles it.
