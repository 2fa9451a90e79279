# linode-uptime reconciliation, modelled in Dafny

`linode-uptime` keeps a monitoring provider's uptime checks in line with a
host inventory. It lists the provider's checks and folds the list into a
dictionary from check name to check id. Paused checks get the empty string
`""` as their value. Then, for each inventory host (label and public IP), it
takes one of three actions:

- **create**: `PUT checks` when no check has the host's label;
- **update**: `POST checks/<id>` when the label maps to a non-empty id;
- **nothing**: when the label maps to `""`.

Every create or update carries the form fields `name`, `url`, `type`,
`alertTreshold`, `maxTime` and `interval`. They start from the defaults of
`makeReqBody`. Then `name` becomes the label and `url` becomes
`http://<ip>/live/live.htm`.

Paused checks are skipped, not re-enabled: main.go:63 stores `""` for them
and main.go:84 sends nothing for `""`. Active checks with an id are
updated. An active check
whose `_id` is `""` cannot be told apart from a paused one, and it is
skipped too (`Checks.BuildMapSentinel`).

Files:

- `options.dfy`: `Option`, used for "at most one request per host".
- `checks.dfy`: the decoded check record, the dictionary as a fold function
  (`BuildMap`), the loop that fills it (`BuildCheckMap`), and lemmas about
  its keys and values.
- `requests.dfy`: verbs, requests, the default body and the per-host body.
- `reconcile.dfy`: the per-host decision, the host loop, the whole run, and
  lemmas relating the requests sent to the inventory and the check list.

The inventory is an arbitrary sequence of hosts. Go's map iteration order is
unspecified, and `Reconcile.PlanPermutation` shows that the order only
changes the order of the requests, not which requests are sent.

## Model

| member | source | states |
|---|---|---|
| `Checks.BuildCheckMap` | main.go:49-65 | the loop leaves exactly the fold of the list in the dictionary, and its keys are exactly the names in the list |
| `Checks.BuildMapKeys` | main.go:55-65 | every check name in the list is a key of the dictionary, and nothing else is |
| `Checks.BuildMapLookup` | main.go:55-65 | a name with no check has no entry; otherwise its value is the last such check's `_id` when that check is not paused, and `""` when it is |
| `Checks.BuildMapLastWins` | main.go:59-64 | when several checks share a name, the last one in list order decides the stored value |
| `Checks.BuildMapSentinel` | main.go:60-64 | a name's value is `""` exactly when its last check is paused or has an empty `_id` |
| `Requests.MakeReqBody` | main.go:151-160 | the default body has exactly the six form fields |
| `Requests.HostBody` | main.go:80-82 | a create or update body has exactly the six fields, with `name` = label, `url` = `http://` + ip + `/live/live.htm`, `type=http`, `alertTreshold=2`, `maxTime=5000`, `interval=120` |
| `Requests.HostBodyInjective` | main.go:80-82 | hosts with different labels or IPs get different bodies, since the body gives back both |
| `Requests.UpdatePathIsNotCreatePath` | main.go:79-87 | an update path `checks/<id>` is never the create path `checks`, whatever the id |
| `Reconcile.Decide` | main.go:74-92 | a host yields no request exactly when its label maps to `""`; any request is a PUT or a POST carrying the host's body; it is a PUT to `checks` exactly when the label is not a key, and otherwise a POST to `checks/` followed by the label's id |
| `Reconcile.Plan` | main.go:73-93 | the host loop sends at most one request per host |
| `Reconcile.ReconcileHosts` | main.go:73-93 | the loop sends exactly the planned requests, in host order, and only reads the dictionary |
| `Reconcile.Run` | main.go:45-93 | a run first lists the checks, then sends the plan for the dictionary built from the list; the dictionary it ends with is the one it built |
| `Reconcile.PlanAppend` | main.go:73-93 | the requests of hosts visited earlier come before those of hosts visited later |
| `Reconcile.PlanMembers` | main.go:73-93 | a request is sent exactly when some host's decision is that request |
| `Reconcile.PlanPermutation` | main.go:73 | reordering the inventory reorders the requests but changes neither which requests are sent nor how often |
| `Reconcile.PlanCount` | main.go:73-93 | the number of requests is the number of hosts minus the hosts whose label maps to `""` |
| `Reconcile.DecideAgainstChecks` | main.go:55-92 | stated against the check list: PUT `checks` when no check has the label; POST `checks/<id>` when the last such check is active with a non-empty id; nothing when it is paused or its id is empty |
| `Reconcile.PausedIsSkipped` | main.go:60-92 | a host whose last check is paused yields no request, and no request sent carries its body |

## Left out

- Configuration loading (`getConfig`, main.go:98-120) reads the filesystem and parses INI through an external library. It is not modelled.
- The HTTP client (`apiRequest`, main.go:122-149) is not modelled: base URI, basic auth, form encoding and the response. A request is recorded only as its verb, path and body fields.
- `Reconcile.ReconcileHosts` and `Reconcile.Run` assume that every request URL can be built, so every planned request is sent. In the source, when `http.NewRequest` fails (for example, a check `_id` holding a stray `%` or a control character), `req` is nil and `req.Header.Set` at main.go:139 panics. The host loop then stops at the first request it cannot build.
- JSON decoding is not modelled (main.go:50-59, main.go:67-72). The model takes decoded check records and hosts as inputs. The type assertions that panic on malformed entries are therefore not modelled either, including the `_id` assertion, which is evaluated only for checks that are not paused. A missing `host_label` or `host_public_ip` is represented by the empty string, which is what Go's map lookup yields.
- `Checks.Check`: `isPaused` is a boolean that is true exactly when the JSON field is the boolean `true`. Go compares the decoded value with `!= true`, so a missing field or a non-boolean value counts as not paused.
- The `N:`/`U:` console lines and `fatal`/`os.Exit` (main.go:77, main.go:86, main.go:162-165) are console I/O and process exit. They are not modelled.
- Go's hash iteration order over `hostvars` is not modelled. The inventory is any sequence, and `Reconcile.PlanPermutation` covers every order.
- Responses to the PUT and POST requests are ignored by the source, so they are not part of the model.
