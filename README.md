# aws-ec2-runtime-checker: the checker core in Dafny

This project models the evaluation and remediation engine of
aws-ec2-runtime-checker, `internal/checker/checker.go`. One cycle of `RunCheck`
builds server-side filters from the configured targets. It then pages through
`DescribeInstances` and flags every instance whose first matching target it
outlives. Unless in dry run, it terminates each flagged instance by its own
single-id call. It writes a report and publishes the report to an SNS topic
when one is configured.

Layout:

- `wrappers.dfy`: `Option`.
- `configuration.dfy`: `Target` and `Config`, with the fields the checker reads.
- `report.dfy`: the report lines. Each line keeps the data it prints, not the text.
- `aws.dfy`: the EC2 and SNS shapes the checker uses. The two clients are classes
  that answer from scripted responses and keep a ghost log of every call.
- `glob.dfy`: the part of Go's `filepath.Match` that Name patterns use.
- `matcher.dfy`: `getInstanceName`, `matchesTarget` and `checkInstanceRuntime`,
  written as functions with their properties.
- `filters.dfy`: `buildFilters`, as imperative methods proved against
  `IsFilterListFor`, plus the filter-list properties.
- `checker.dfy`: the specification functions of one cycle (`Evaluate`, `ReportFor`,
  `TerminateCalls`, `Notifications`, `Cycle*`). Also the `Checker` class, whose
  methods are proved against them, and the `ReportBuilder` class that stands for
  the shared `strings.Builder`.
- `checker_properties.dfy`: the cycle-level properties.

Modelling choices:

- The clock is a parameter `now`. Launch times and `now` are integer nanoseconds,
  and thresholds are real hours. `time.Since(l).Hours() > max` is modelled in exact
  arithmetic as `(now - l) / 3.6e12 > max`.
- Each page request either returns a page or fails. Each `TerminateInstances` and
  `Publish` call takes the next response from its script. A script that has run out
  answers with success.
- `buildFilters` emits the tag filters by ranging over a Go map. The model picks each
  next key nondeterministically, so every proved property holds for every emission
  order.

Where the code and its own comments differ, the model follows the code:

- **Absent tags.** The comments at `internal/config/config.go:20` and
  `internal/checker/checker.go:229` say that all required tags must match. The code
  compares against the tag map's zero value, so a required tag whose value is `""`
  is satisfied by an instance that lacks the key (`AbsentTagReadsEmpty`).
- **Name patterns.** The comments at `internal/config/config.go:16` and
  `internal/checker/checker.go:220` speak of wildcard matching with `*`. The code
  calls `filepath.Match`, so `*` and `?` do not cross `/`, `\` escapes, and a
  malformed pattern never matches.

Further modelling decisions:

- **Missing launch time.** The code dereferences the launch time of every instance
  some target selects. The model makes that a precondition (`LaunchTimesKnown`).
- **Filter list.** It is not in general an over-approximation of the match set. The
  type, VPC and tag filters are conjoined across all targets. The model proves what
  the list is, not what it admits.

## Model

| member | source | states |
|---|---|---|
| Glob.LiteralMatchesItself | internal/checker/checker.go:223-226 | a pattern without metacharacters matches exactly the name equal to it |
| Glob.StarMatches | internal/checker/checker.go:223-226 | a lone `*` matches exactly the names that contain no `/` |
| Glob.PrefixStarMatch | internal/checker/checker.go:223-226 | `lit*` is well formed and matches exactly the names that start with `lit` and have no `/` after it |
| Glob.DevPatternExample | internal/checker/checker.go:220-227 | `dev-*` selects `dev-instance-01` and rejects `prod-instance-01` |
| Matcher.GetInstanceName | internal/checker/checker.go:248-255 | the value of the first tag with key `Name` and a value; `""` when there is none |
| Matcher.TagMap | internal/checker/checker.go:231-236 | keys are those of the tags that have both key and value; each maps to the value of its last such tag |
| Matcher.LookupReadsAs | internal/checker/checker.go:231-241 | reading a key of the tag map gives the value of its last complete tag, or `""` when there is none |
| Matcher.MatchesTarget | internal/checker/checker.go:214-245 | a match needs a well-formed Name pattern that matches the instance's Name when a name is set, and every required tag with a non-empty value present on a complete tag with that value |
| Matcher.MatchesTargetIff | internal/checker/checker.go:214-245 | a target matches iff the type is equal when set, the Name glob is well formed and matches when set, and every required tag reads as its required value |
| Matcher.UnconstrainedTargetMatchesAll | internal/checker/checker.go:214-245 | a target with no type, no name and no tags matches every instance |
| Matcher.AbsentTagReadsEmpty | internal/checker/checker.go:237-241 | an instance without key k matches a target whose only requirement is k = `""` |
| Matcher.FirstMatch | internal/checker/checker.go:139-150 | the index of the first matching target, or none iff no target matches |
| Matcher.CheckInstanceRuntime | internal/checker/checker.go:137-151 | flagged iff some target matches and the runtime exceeds the first matching target's threshold |
| Matcher.FirstMatchWins | internal/checker/checker.go:139-149 | the verdict is that of the first matching target alone, whatever the earlier non-matching targets |
| Matcher.LaterTargetsIgnored | internal/checker/checker.go:148 | targets after a matching one never change the verdict |
| Matcher.NoMatchNotFlagged | internal/checker/checker.go:139-150 | an instance no target matches is never flagged |
| Matcher.StrictThreshold | internal/checker/checker.go:145 | a runtime of exactly the threshold is not flagged; one nanosecond more is |
| Matcher.ExceedsIff | internal/checker/checker.go:143-145 | the hour comparison equals comparing nanoseconds against the threshold times 3.6e12 |
| Filters.TagFilterName | internal/checker/checker.go:90 | `tag:` + key is a tag filter name from which the key is recovered |
| Filters.TagFilterMap | internal/checker/checker.go:86-96 | a key is in the collected map iff some target requires it; each key maps to a non-empty list, the values the targets require for it in target order |
| Filters.CollectInstanceTypes | internal/checker/checker.go:64-70 | the loop collects `InstanceTypes`: the non-empty types in target order |
| Filters.CollectTagFilters | internal/checker/checker.go:86-96 | the loops collect the key-to-values map of all targets' required tags |
| Filters.EmitTagFilters | internal/checker/checker.go:97-102 | in any iteration order, exactly one `tag:k` filter per key, carrying that key's values |
| Filters.BuildFilters | internal/checker/checker.go:56-105 | the result is a filter list for the configuration: fixed filters first, then the tag filters |
| Filters.StateFilterFirst | internal/checker/checker.go:57-62 | the list starts with `instance-state-name` = `["running"]` |
| Filters.FilterNames | internal/checker/checker.go:56-105 | each position holds the state, type or VPC filter in the fixed part, or one tag filter after it |
| Filters.FixedNamesDistinct | internal/checker/checker.go:57-102 | the three fixed filter names differ from each other and from every `tag:` name |
| Filters.VpcFilterIff | internal/checker/checker.go:78-84 | a `vpc-id` filter is present iff VpcID is not `""`, and its values are exactly `[VpcID]` |
| Filters.InstanceTypesAppend | internal/checker/checker.go:66-70 | the collected types of two target lists are those of the first followed by those of the second |
| Filters.InstanceTypesSingle | internal/checker/checker.go:67-69 | one target contributes its type iff the type is set |
| Filters.InstanceTypesNonEmpty | internal/checker/checker.go:66-71 | some type is collected iff some target sets a type |
| Filters.TypeFilterIff | internal/checker/checker.go:64-76 | an `instance-type` filter is present iff some target sets a type, carrying the non-empty types in order |
| Filters.TagKeysIff | internal/checker/checker.go:88-89 | a key is collected iff some target requires it |
| Filters.TagValuesAppend | internal/checker/checker.go:88-95 | the values for a key over two target lists are those of the first followed by those of the second |
| Filters.TagValuesSingle | internal/checker/checker.go:89-94 | one target contributes its required value for the key, if it has one |
| Filters.TagFilterPerKey | internal/checker/checker.go:86-102 | exactly one `tag:k` filter exists per required key k, and none otherwise; it carries the values the targets require for k |
| Checker.PagesRequested | internal/checker/checker.go:116-122 | at most all pages and at least one when there is any; every page before the last requested one succeeded, and stopping early means the last requested page failed |
| Checker.Violators | internal/checker/checker.go:124-130 | no more instances than scanned; each flagged instance was scanned and `checkInstanceRuntime` flags it |
| Checker.Evaluate | internal/checker/checker.go:108-134 | nothing is found when a page fails; each found instance was delivered and is flagged by `checkInstanceRuntime` |
| Checker.Entries | internal/checker/checker.go:157-176 | one line per instance in dry run, two per instance otherwise |
| Checker.ReportFor | internal/checker/checker.go:154-178 | the report starts with the `Found N` header for the N instances and then holds one or two lines per instance |
| Checker.PagesRequestedIff | internal/checker/checker.go:116-122 | every page is requested when none fails; otherwise requests stop at the first failing page |
| Checker.ViolatorsMember | internal/checker/checker.go:124-130 | an instance is flagged iff it is scanned and `checkInstanceRuntime` flags it |
| Checker.ViolatorsAppend | internal/checker/checker.go:124-130 | flagging keeps scan order: it distributes over concatenation |
| Checker.ViolatorsHaveLaunchTimes | internal/checker/checker.go:137-151 | every flagged instance has a launch time |
| Checker.InstancesOfAppend | internal/checker/checker.go:116-131 | after good pages, the scanned instances are those of each page in page order |
| Checker.Checker.New | internal/checker/checker.go:34-40 | the checker keeps the EC2 client, the SNS client and the configuration it is given |
| Checker.Checker.FindLongRunningInstances | internal/checker/checker.go:108-134 | returns `Evaluate` of the pages; requests exactly the pages up to and including the first failure; every request carries a filter list for the configuration |
| Checker.Checker.ScanPages | internal/checker/checker.go:113-133 | returns `Evaluate` of the pages, which is empty once any requested page fails; requests the pages up to and including the first failure, each with the same filter list, and leaves the termination script alone |
| Checker.Checker.ScanPage | internal/checker/checker.go:124-130 | returns the flagged instances of one page's reservations, in order |
| Checker.Checker.ScanInstances | internal/checker/checker.go:125-129 | returns the flagged instances of one reservation, in order |
| Checker.Checker.ProcessInstances | internal/checker/checker.go:154-178 | the message is `ReportFor` the instances; calls are `TerminateCalls`; one termination response is consumed per instance unless in dry run |
| Checker.Checker.ReportInstance | internal/checker/checker.go:157-176 | writes the instance's line, then, unless in dry run, terminates it and writes the outcome |
| Checker.Checker.TerminateInstance | internal/checker/checker.go:181-192 | one TerminateInstances call with the single id; its outcome line is written and nothing else changes |
| Checker.Checker.SendNotification | internal/checker/checker.go:195-210 | publishes nothing without a topic, otherwise exactly one publication under the alert subject; the response is ignored |
| Checker.Checker.RunCheck | internal/checker/checker.go:42-53 | the calls are the page requests followed by `CycleTerminations`; the publications are `CycleNotifications` |
| CheckerProperties.EvaluateMember | internal/checker/checker.go:116-131 | an instance is found iff no page failed, a page delivered it and it is flagged |
| CheckerProperties.EvaluateAppend | internal/checker/checker.go:116-131 | over good pages, the finds keep page order |
| CheckerProperties.DryRunEntries | internal/checker/checker.go:160-174 | in dry run the report has one line per instance, in order |
| CheckerProperties.LiveEntries | internal/checker/checker.go:160-174 | otherwise each instance's line is followed by the outcome of its own termination |
| CheckerProperties.ReportShape | internal/checker/checker.go:154-178 | the report is the `Found N` header, then per instance its line and, unless in dry run, its outcome |
| CheckerProperties.FailureIsolated | internal/checker/checker.go:181-192 | changing one termination's response changes only that instance's outcome line |
| CheckerProperties.TerminateCallsShape | internal/checker/checker.go:170-174 | no terminations in dry run; otherwise exactly one single-id call per instance, in order |
| CheckerProperties.SecondOfThreeFails | internal/checker/checker.go:154-192 | with three instances whose second termination fails, all three are attempted and each outcome is reported |
| CheckerProperties.NotificationsIff | internal/checker/checker.go:195-206 | nothing is published iff the topic is `""`; otherwise one publication with the alert subject |
| CheckerProperties.CycleOutcome | internal/checker/checker.go:42-53 | nothing flagged means no terminations and no publication; otherwise terminations iff not in dry run, and one publication headed by the count iff a topic is set |
| CheckerProperties.OverdueInstanceScenario | internal/checker/checker_test.go:39-144 | a t2.micro running 25 hours under a 24-hour target is flagged, terminated by id unless in dry run, and reported to the topic |

## Left out

- Report text: the `fmt` formatting and the `%.2f` rounding of hours are left out. Each line keeps the values it prints (count, id, type, runtime in nanoseconds, error).
- Character classes `[...]` of `filepath.Match` are not modelled. A pattern with an unescaped `[` is treated as a bad pattern, so it never matches.
- The clock: `time.Since` is read once per cycle as the parameter `now`. The source reads it again for each instance.
- Duration saturation: `time.Duration` is a 64-bit nanosecond count that saturates after about 292 years. The model uses unbounded integers.
- Instance ids: `*instance.InstanceId` is modelled as always present. A missing id, which would make the source panic, is outside this model.
- Missing launch times are a precondition, not a modelled panic (see above).
- Paginator internals: the page-token handling of the DescribeInstances paginator is abstracted into a list of page results. The paginator reports more pages before its first request, so the list is never empty: `FindLongRunningInstances` and `RunCheck` require at least one page, and an empty fleet is one page without reservations.
- Logging (`slog`) is left out: it has no effect on the state the model tracks.
- The request context, cancellation and timeouts are left out.
- `main.go`, `cmd/main.go`, configuration loading (`internal/config`) and Kubernetes leader election (`internal/k8s`) are not part of this model.
- Go's map iteration order is not fixed by the model. It appears as the nondeterministic emission order of tag filters in `EmitTagFilters`, and as the nondeterministic choice of the next key of a target's tags in `CollectTagFilters`; every proved property holds for every such order.
- The over-approximation of the match set by the filter list is not claimed (see above).
- Glob.Matches: works on Unicode characters, while `filepath.Match` steps `*` over single bytes and decodes the rune for `?` from wherever the star stopped. For non-ASCII names with `?` after `*` the two can differ: Go matches `*??` against the three-byte name `€`, the model does not.
- Matcher.Exceeds: compares in exact arithmetic. Go compares the float64 `Duration.Hours()`, `float64(hours) + float64(rest)/3.6e12`, against the threshold, and from a threshold of 4096 hours upward a runtime one nanosecond over it rounds back to the threshold and is not flagged.
- Matcher.StrictThreshold: holds in the model's exact arithmetic only; because of the float64 rounding described for `Matcher.Exceeds`, Go does not flag a runtime of threshold plus one nanosecond for large thresholds.
