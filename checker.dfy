/**
 * The checker (internal/checker/checker.go:28-210): one evaluation cycle that pages
 * through DescribeInstances, keeps the instances whose first matching target they
 * outlive, terminates them unless in dry run, and publishes the report.
 */
module Checker {
  import opened Wrappers
  import opened Configuration
  import opened Aws
  import opened Report
  import opened Matcher
  import Filters

  const AlertSubject: string := "Long-Running EC2 Instances Alert"

  // ---------------------------------------------------------------------------
  // Evaluation: which instances a cycle flags.

  /** The instances of the reservations, in reservation then instance order. */
  function ReservationInstances(rs: seq<Reservation>): seq<Instance>
  {
    if rs == [] then [] else ReservationInstances(rs[..|rs| - 1]) + rs[|rs| - 1].instances
  }

  /** The instances the pages deliver before the first failing page. */
  function InstancesOf(pages: seq<PageResult>): seq<Instance>
  {
    if pages == [] then []
    else match pages[0]
      case PageErr(_) => []
      case PageOk(p) => ReservationInstances(p.reservations) + InstancesOf(pages[1..])
  }

  predicate HasError(pages: seq<PageResult>)
  {
    exists j | 0 <= j < |pages| :: pages[j].PageErr?
  }

  /** How many pages the paginator requests: all of them, or up to and including the first failing one. */
  function PagesRequested(pages: seq<PageResult>): (n: nat)
    ensures n <= |pages|
    ensures pages != [] ==> 1 <= n
    ensures forall j | 0 <= j < n - 1 :: pages[j].PageOk?
    ensures 0 < n < |pages| ==> pages[n - 1].PageErr?
  {
    if pages == [] then 0
    else if pages[0].PageErr? then 1
    else 1 + PagesRequested(pages[1..])
  }

  /** Every instance some target selects has a launch time (the source dereferences it). */
  predicate LaunchTimesKnown(targets: seq<Target>, insts: seq<Instance>)
  {
    forall x | x in insts :: MatchesAny(targets, x) ==> x.launchTime.Some?
  }

  /** The instances checkInstanceRuntime flags, in order. */
  function Violators(targets: seq<Target>, now: int, insts: seq<Instance>): (r: seq<Instance>)
    requires LaunchTimesKnown(targets, insts)
    ensures |r| <= |insts|
    ensures forall x | x in r :: x in insts && CheckInstanceRuntime(targets, x, now)
  {
    if insts == [] then []
    else
      var x := insts[|insts| - 1];
      Violators(targets, now, insts[..|insts| - 1])
        + (if CheckInstanceRuntime(targets, x, now) then [x] else [])
  }

  /** The result of findLongRunningInstances: nothing when any page fails, otherwise the
      flagged instances of all pages. */
  function Evaluate(targets: seq<Target>, now: int, pages: seq<PageResult>): (r: seq<Instance>)
    requires LaunchTimesKnown(targets, InstancesOf(pages))
    ensures HasError(pages) ==> r == []
    ensures forall x | x in r :: x in InstancesOf(pages) && CheckInstanceRuntime(targets, x, now)
  {
    if HasError(pages) then [] else Violators(targets, now, InstancesOf(pages))
  }

  // ---------------------------------------------------------------------------
  // Remediation: what processInstances writes and which terminations it issues.

  /** The response the k-th call gets from a script (success once it is exhausted). */
  function ResponseAt(script: seq<CallResult>, k: nat): CallResult
  {
    if k < |script| then script[k] else CallOk
  }

  /** The script left after n calls. */
  function Drop(script: seq<CallResult>, n: nat): seq<CallResult>
  {
    if n <= |script| then script[n..] else []
  }

  /** The line terminateInstance writes for a response. */
  function OutcomeLine(id: string, r: CallResult): Line
  {
    match r
    case CallOk => Terminated(id)
    case CallErr(e) => TerminateFailed(id, e)
  }

  /** Every instance of the list has a launch time. */
  predicate Launched(xs: seq<Instance>)
  {
    forall i | 0 <= i < |xs| :: xs[i].launchTime.Some?
  }

  /** The line processInstances writes for a flagged instance: id, type and runtime. */
  function FoundLine(x: Instance, now: int): Line
    requires x.launchTime.Some?
  {
    Found(x.id, x.instanceType, now - x.launchTime.value)
  }

  /** The lines processInstances writes for the instances `xs`, the k-th termination
      receiving ResponseAt(script, k). */
  function Entries(dryRun: bool, now: int, xs: seq<Instance>, script: seq<CallResult>): (e: seq<Line>)
    requires Launched(xs)
    ensures |e| == (if dryRun then |xs| else 2 * |xs|)
  {
    if xs == [] then []
    else
      var x := xs[|xs| - 1];
      Entries(dryRun, now, xs[..|xs| - 1], script)
        + [FoundLine(x, now)]
        + (if dryRun then [] else [OutcomeLine(x.id, ResponseAt(script, |xs| - 1))])
  }

  /** The whole report: the count header, then the entries. */
  function ReportFor(dryRun: bool, now: int, xs: seq<Instance>, script: seq<CallResult>): (r: seq<Line>)
    requires Launched(xs)
    ensures |r| == 1 + (if dryRun then |xs| else 2 * |xs|) && r[0] == Header(|xs|)
  {
    [Header(|xs|)] + Entries(dryRun, now, xs, script)
  }

  /** The TerminateInstances calls processInstances issues: none in dry run, otherwise one
      single-id call per instance, in order. */
  function TerminateCalls(dryRun: bool, xs: seq<Instance>): seq<Ec2Call>
  {
    if dryRun || xs == [] then []
    else TerminateCalls(dryRun, xs[..|xs| - 1]) + [Terminate([xs[|xs| - 1].id])]
  }

  /** What sendNotification publishes. */
  function Notifications(topicArn: string, message: seq<Line>): seq<Publication>
  {
    if topicArn == "" then [] else [Publication(topicArn, AlertSubject, message)]
  }

  // ---------------------------------------------------------------------------
  // One cycle of RunCheck, as values.

  /** The report a cycle builds: none when nothing is flagged. */
  function CycleReport(cfg: Config, now: int, pages: seq<PageResult>, script: seq<CallResult>): Option<seq<Line>>
    requires LaunchTimesKnown(cfg.targets, InstancesOf(pages))
  {
    var found := Evaluate(cfg.targets, now, pages);
    if found == [] then None
    else
      ViolatorsHaveLaunchTimes(cfg.targets, now, pages);
      Some(ReportFor(cfg.dryRun, now, found, script))
  }

  /** What a cycle publishes. */
  function CycleNotifications(cfg: Config, now: int, pages: seq<PageResult>, script: seq<CallResult>): seq<Publication>
    requires LaunchTimesKnown(cfg.targets, InstancesOf(pages))
  {
    match CycleReport(cfg, now, pages, script)
    case None => []
    case Some(report) => Notifications(cfg.snsTopicArn, report)
  }

  /** The TerminateInstances calls a cycle issues. */
  function CycleTerminations(cfg: Config, now: int, pages: seq<PageResult>): seq<Ec2Call>
    requires LaunchTimesKnown(cfg.targets, InstancesOf(pages))
  {
    TerminateCalls(cfg.dryRun, Evaluate(cfg.targets, now, pages))
  }

  // ---------------------------------------------------------------------------
  // Lemmas the methods need.

  lemma {:induction false} ViolatorsMember(targets: seq<Target>, now: int, insts: seq<Instance>, x: Instance)
    requires LaunchTimesKnown(targets, insts)
    ensures x in Violators(targets, now, insts) <==> x in insts && CheckInstanceRuntime(targets, x, now)
  {
    if insts != [] {
      var front := insts[..|insts| - 1];
      assert insts == front + [insts[|insts| - 1]];
      ViolatorsMember(targets, now, front, x);
    }
  }

  /** Flagged instances matched a target, so their launch time is known. */
  lemma ViolatorsHaveLaunchTimes(targets: seq<Target>, now: int, pages: seq<PageResult>)
    requires LaunchTimesKnown(targets, InstancesOf(pages))
    ensures Launched(Evaluate(targets, now, pages))
  {
    forall i | 0 <= i < |Evaluate(targets, now, pages)| ensures Evaluate(targets, now, pages)[i].launchTime.Some? {
      var x := Evaluate(targets, now, pages)[i];
      ViolatorsMember(targets, now, InstancesOf(pages), x);
      if !MatchesAny(targets, x) {
        NoMatchNotFlagged(targets, x, now);
      }
    }
  }

  /** Violators is an order-preserving filter: it distributes over concatenation. */
  lemma {:induction false} ViolatorsAppend(targets: seq<Target>, now: int, a: seq<Instance>, b: seq<Instance>)
    requires LaunchTimesKnown(targets, a + b)
    ensures LaunchTimesKnown(targets, a) && LaunchTimesKnown(targets, b)
    ensures Violators(targets, now, a + b) == Violators(targets, now, a) + Violators(targets, now, b)
    decreases |b|
  {
    KnownSplit(targets, a, b);
    if b == [] {
      assert a + b == a;
    } else {
      var b' := b[..|b| - 1];
      var x := b[|b| - 1];
      assert (a + b)[..|a + b| - 1] == a + b' && (a + b)[|a + b| - 1] == x;
      KnownSplit(targets, a + b', [x]);
      ViolatorsAppend(targets, now, a, b');
      var last := if CheckInstanceRuntime(targets, x, now) then [x] else [];
      assert Violators(targets, now, a + b) == Violators(targets, now, a + b') + last;
      assert Violators(targets, now, b) == Violators(targets, now, b') + last;
    }
  }

  lemma {:induction false} InstancesOfAppend(a: seq<PageResult>, b: seq<PageResult>)
    requires !HasError(a)
    ensures InstancesOf(a + b) == InstancesOf(a) + InstancesOf(b)
  {
    if a == [] {
      assert a + b == b;
    } else {
      NoErrorPrefix(a, |a|);
      assert a[..|a|] == a;
      assert a[0].PageOk?;
      var head := ReservationInstances(a[0].page.reservations);
      assert (a + b)[0] == a[0] && (a + b)[1..] == a[1..] + b;
      NoErrorPrefix(a[1..], |a| - 1);
      assert a[1..][..|a| - 1] == a[1..];
      InstancesOfAppend(a[1..], b);
      calc {
        InstancesOf(a + b);
        head + InstancesOf(a[1..] + b);
        head + (InstancesOf(a[1..]) + InstancesOf(b));
        (head + InstancesOf(a[1..])) + InstancesOf(b);
        InstancesOf(a) + InstancesOf(b);
      }
    }
  }

  /** No failure among the first n pages, stated index by index. */
  lemma NoErrorPrefix(pages: seq<PageResult>, n: nat)
    requires n <= |pages|
    ensures !HasError(pages[..n]) <==> forall j | 0 <= j < n :: pages[j].PageOk?
  {
    assert forall j | 0 <= j < n :: pages[..n][j] == pages[j];
  }

  lemma {:induction false} ReservationInstancesAppend(a: seq<Reservation>, b: seq<Reservation>)
    ensures ReservationInstances(a + b) == ReservationInstances(a) + ReservationInstances(b)
    decreases |b|
  {
    if b == [] {
      assert a + b == a;
    } else {
      var b' := b[..|b| - 1];
      assert (a + b)[..|a + b| - 1] == a + b';
      ReservationInstancesAppend(a, b');
    }
  }

  /** Requests stop at the first failing page, and without a failure every page is requested. */
  lemma {:induction false} PagesRequestedIff(pages: seq<PageResult>)
    ensures !HasError(pages) ==> PagesRequested(pages) == |pages|
    ensures HasError(pages) ==> 1 <= PagesRequested(pages) && pages[PagesRequested(pages) - 1].PageErr?
                                && !HasError(pages[..PagesRequested(pages) - 1])
  {
    if pages != [] {
      PagesRequestedIff(pages[1..]);
      if pages[0].PageOk? {
        assert HasError(pages) <==> HasError(pages[1..]) by {
          if HasError(pages) {
            var j :| 0 <= j < |pages| && pages[j].PageErr?;
            assert pages[1..][j - 1] == pages[j];
          }
          if HasError(pages[1..]) {
            var j :| 0 <= j < |pages[1..]| && pages[1..][j].PageErr?;
            assert pages[j + 1] == pages[1..][j];
          }
        }
        if HasError(pages) {
          var n := PagesRequested(pages[1..]);
          assert pages[..n] == [pages[0]] + pages[1..][..n - 1];
          assert !HasError(pages[..n]) by {
            forall j | 0 <= j < n ensures !pages[..n][j].PageErr? {
              if j > 0 { assert pages[..n][j] == pages[1..][..n - 1][j - 1]; }
            }
          }
        }
      }
    }
  }

  /** The k-th page, following k good pages, contributes its instances right after theirs. */
  lemma PageSplit(pages: seq<PageResult>, k: nat)
    requires k < |pages| && pages[k].PageOk? && !HasError(pages[..k])
    ensures InstancesOf(pages[..k + 1]) == InstancesOf(pages[..k]) + ReservationInstances(pages[k].page.reservations)
    ensures !HasError(pages[..k + 1])
  {
    var rs := pages[k].page.reservations;
    InstancesOfAppend(pages[..k], [pages[k]]);
    assert pages[..k + 1] == pages[..k] + [pages[k]];
    assert InstancesOf([pages[k]]) == ReservationInstances(rs) + InstancesOf([]) by { assert [pages[k]][1..] == []; }
    NoErrorPrefix(pages, k);
    NoErrorPrefix(pages, k + 1);
  }

  /** A failing k-th page after k good ones is the last page requested. */
  lemma {:induction false} FirstErrorIsRequestedLast(pages: seq<PageResult>, k: nat)
    requires k < |pages| && pages[k].PageErr? && !HasError(pages[..k])
    ensures HasError(pages) && PagesRequested(pages) == k + 1
    decreases k
  {
    assert pages[k].PageErr?;
    if k > 0 {
      assert pages[0] == pages[..k][0];
      var rest := pages[1..];
      var front := rest[..k - 1];
      forall j | 0 <= j < k - 1 ensures front[j].PageOk? {
        assert front[j] == pages[..k][j + 1];
      }
      assert rest[k - 1] == pages[k];
      FirstErrorIsRequestedLast(rest, k - 1);
    }
  }

  /** A failing page ends the scan: nothing is reported, and it was the last page requested. */
  lemma StopOnError(targets: seq<Target>, now: int, pages: seq<PageResult>, k: nat)
    requires k < |pages| && pages[k].PageErr? && !HasError(pages[..k])
    requires LaunchTimesKnown(targets, InstancesOf(pages))
    ensures Evaluate(targets, now, pages) == [] && PagesRequested(pages) == k + 1
  {
    FirstErrorIsRequestedLast(pages, k);
  }

  /** Every page read without error: the scan reports the violators of all of them. */
  lemma StopAtEnd(targets: seq<Target>, now: int, pages: seq<PageResult>, k: nat, found: seq<Instance>)
    requires k == |pages| && !HasError(pages[..k])
    requires LaunchTimesKnown(targets, InstancesOf(pages))
    requires LaunchTimesKnown(targets, InstancesOf(pages[..k]))
    requires found == Violators(targets, now, InstancesOf(pages[..k]))
    ensures found == Evaluate(targets, now, pages) && PagesRequested(pages) == k
  {
    assert pages[..k] == pages;
    PagesRequestedIff(pages);
  }

  /** The instances of the first r reservations have their launch times whenever all do. */
  lemma {:induction false} PrefixInstancesKnown(targets: seq<Target>, rs: seq<Reservation>, r: nat)
    requires r <= |rs|
    requires LaunchTimesKnown(targets, ReservationInstances(rs))
    ensures LaunchTimesKnown(targets, ReservationInstances(rs[..r]))
    decreases |rs|
  {
    if r < |rs| {
      var init := rs[..|rs| - 1];
      KnownSplit(targets, ReservationInstances(init), rs[|rs| - 1].instances);
      assert init[..r] == rs[..r];
      PrefixInstancesKnown(targets, init, r);
    } else {
      assert rs[..r] == rs;
    }
  }

  /** Both halves of a list whose selected instances have launch times have them too. */
  lemma KnownSplit(targets: seq<Target>, a: seq<Instance>, b: seq<Instance>)
    requires LaunchTimesKnown(targets, a + b)
    ensures LaunchTimesKnown(targets, a) && LaunchTimesKnown(targets, b)
  {
    forall x | x in a ensures MatchesAny(targets, x) ==> x.launchTime.Some? {
      assert x in a + b;
    }
    forall x | x in b ensures MatchesAny(targets, x) ==> x.launchTime.Some? {
      assert x in a + b;
    }
  }

  /** The calls of n pages requested with the same filters. */
  function DescribeLog(filters: seq<Filter>, n: nat): (log: seq<Ec2Call>)
    ensures |log| == n
    ensures forall j | 0 <= j < n :: log[j] == Describe(filters)
  {
    if n == 0 then [] else DescribeLog(filters, n - 1) + [Describe(filters)]
  }

  /** One more good page: its instances follow the earlier ones, and its finds follow theirs. */
  lemma PageStep(targets: seq<Target>, now: int, pages: seq<PageResult>, k: nat)
    requires k < |pages| && pages[k].PageOk? && !HasError(pages[..k])
    requires LaunchTimesKnown(targets, InstancesOf(pages))
    ensures !HasError(pages[..k + 1])
    ensures LaunchTimesKnown(targets, ReservationInstances(pages[k].page.reservations))
    ensures LaunchTimesKnown(targets, InstancesOf(pages[..k]))
    ensures LaunchTimesKnown(targets, InstancesOf(pages[..k + 1]))
    ensures Violators(targets, now, InstancesOf(pages[..k + 1]))
         == Violators(targets, now, InstancesOf(pages[..k])) + Violators(targets, now, ReservationInstances(pages[k].page.reservations))
  {
    var rs := ReservationInstances(pages[k].page.reservations);
    PageSplit(pages, k);
    NoErrorPrefix(pages, k + 1);
    InstancesOfAppend(pages[..k + 1], pages[k + 1..]);
    assert pages[..k + 1] + pages[k + 1..] == pages;
    assert forall x | x in InstancesOf(pages[..k + 1]) :: x in InstancesOf(pages);
    ViolatorsAppend(targets, now, InstancesOf(pages[..k]), rs);
  }

  /** The report and the terminations grow by one instance at a time, after whatever
      was written and called before. */
  lemma EntriesStep(dryRun: bool, now: int, xs: seq<Instance>, i: nat, script: seq<CallResult>,
                    written: seq<Line>, called: seq<Ec2Call>)
    requires i < |xs| && Launched(xs)
    ensures Launched(xs[..i]) && Launched(xs[..i + 1])
    ensures written + Entries(dryRun, now, xs[..i + 1], script)
         == (written + Entries(dryRun, now, xs[..i], script)) + [FoundLine(xs[i], now)]
            + (if dryRun then [] else [OutcomeLine(xs[i].id, ResponseAt(script, i))])
    ensures called + TerminateCalls(dryRun, xs[..i + 1])
         == (called + TerminateCalls(dryRun, xs[..i])) + (if dryRun then [] else [Terminate([xs[i].id])])
  {
    assert xs[..i + 1][..i] == xs[..i] && xs[..i + 1][i] == xs[i];
  }

  lemma ResponseAfter(script: seq<CallResult>, k: nat)
    ensures Next(Drop(script, k)) == ResponseAt(script, k)
    ensures Rest(Drop(script, k)) == Drop(script, k + 1)
  {
  }

  // ---------------------------------------------------------------------------
  // The mutable parts: the report builder and the checker itself.

  /** The strings.Builder shared by processInstances and terminateInstance. */
  class ReportBuilder {
    var lines: seq<Line>

    constructor ()
      ensures lines == []
    {
      lines := [];
    }

    method WriteLine(line: Line)
      modifies this
      ensures lines == old(lines) + [line]
    {
      lines := lines + [line];
    }
  }

  class Checker {
    const ec2: Ec2Client
    const sns: SnsClient
    const cfg: Config

    constructor New(ec2: Ec2Client, sns: SnsClient, cfg: Config)
      ensures this.ec2 == ec2 && this.sns == sns && this.cfg == cfg
    {
      this.ec2 := ec2;
      this.sns := sns;
      this.cfg := cfg;
    }

    /** findLongRunningInstances: page through DescribeInstances with the built filters;
        a failing page discards everything. */
    method FindLongRunningInstances(now: int) returns (found: seq<Instance>, ghost filters: seq<Filter>)
      requires ec2.pages != []  // the paginator always sends a first request; an empty fleet answers one page without reservations
      requires LaunchTimesKnown(cfg.targets, InstancesOf(ec2.pages))
      modifies ec2
      ensures found == Evaluate(cfg.targets, now, old(ec2.pages))
      ensures ec2.pages == old(ec2.pages)[PagesRequested(old(ec2.pages))..]
      ensures ec2.terminations == old(ec2.terminations)
      ensures Filters.IsFilterListFor(cfg, filters)
      ensures ec2.calls == old(ec2.calls) + DescribeLog(filters, PagesRequested(old(ec2.pages)))
    {
      var filterList := Filters.BuildFilters(cfg);
      filters := filterList;
      found := ScanPages(now, filterList);
    }

    /** The paginator loop of findLongRunningInstances: every request carries `filterList`. */
    method ScanPages(now: int, filterList: seq<Filter>) returns (found: seq<Instance>)
      requires LaunchTimesKnown(cfg.targets, InstancesOf(ec2.pages))
      modifies ec2
      ensures found == Evaluate(cfg.targets, now, old(ec2.pages))
      ensures ec2.pages == old(ec2.pages)[PagesRequested(old(ec2.pages))..]
      ensures ec2.terminations == old(ec2.terminations)
      ensures ec2.calls == old(ec2.calls) + DescribeLog(filterList, PagesRequested(old(ec2.pages)))
    {
      ghost var pages0 := ec2.pages;
      ghost var calls0 := ec2.calls;
      ghost var k := 0;
      var longRunning: seq<Instance> := [];

      while ec2.HasMorePages()
        invariant 0 <= k <= |pages0| && ec2.pages == pages0[k..]
        invariant !HasError(pages0[..k])
        invariant LaunchTimesKnown(cfg.targets, InstancesOf(pages0[..k]))
        invariant longRunning == Violators(cfg.targets, now, InstancesOf(pages0[..k]))
        invariant ec2.terminations == old(ec2.terminations)
        invariant ec2.calls == calls0 + DescribeLog(filterList, k)
        decreases |ec2.pages|
      {
        var page := ec2.NextPage(filterList);
        assert page == pages0[k];
        assert ec2.calls == calls0 + DescribeLog(filterList, k + 1) by {
          assert DescribeLog(filterList, k + 1) == DescribeLog(filterList, k) + [Describe(filterList)];
        }
        if page.PageErr? {
          StopOnError(cfg.targets, now, pages0, k);
          found := [];
          return;
        }
        PageStep(cfg.targets, now, pages0, k);
        var flagged := ScanPage(now, page.page.reservations);
        longRunning := longRunning + flagged;
        k := k + 1;
      }
      StopAtEnd(cfg.targets, now, pages0, k, longRunning);
      found := longRunning;
    }

    /** The reservation loop of findLongRunningInstances for one page. */
    method ScanPage(now: int, reservations: seq<Reservation>) returns (flagged: seq<Instance>)
      requires LaunchTimesKnown(cfg.targets, ReservationInstances(reservations))
      ensures flagged == Violators(cfg.targets, now, ReservationInstances(reservations))
    {
      flagged := [];
      for r := 0 to |reservations|
        invariant LaunchTimesKnown(cfg.targets, ReservationInstances(reservations[..r]))
        invariant flagged == Violators(cfg.targets, now, ReservationInstances(reservations[..r]))
      {
        var instances := reservations[r].instances;
        ghost var before := ReservationInstances(reservations[..r]);
        assert ReservationInstances(reservations[..r + 1]) == before + instances by {
          assert reservations[..r + 1][..r] == reservations[..r];
        }
        PrefixInstancesKnown(cfg.targets, reservations, r + 1);
        ViolatorsAppend(cfg.targets, now, before, instances);
        var more := ScanInstances(now, instances);
        flagged := flagged + more;
      }
      assert reservations[..|reservations|] == reservations;
    }

    /** The instance loop of findLongRunningInstances for one reservation. */
    method ScanInstances(now: int, instances: seq<Instance>) returns (flagged: seq<Instance>)
      requires LaunchTimesKnown(cfg.targets, instances)
      ensures flagged == Violators(cfg.targets, now, instances)
    {
      flagged := [];
      for i := 0 to |instances|
        invariant LaunchTimesKnown(cfg.targets, instances[..i])
        invariant flagged == Violators(cfg.targets, now, instances[..i])
      {
        var instance := instances[i];
        assert instances[..i + 1][..i] == instances[..i];
        if CheckInstanceRuntime(cfg.targets, instance, now) {
          flagged := flagged + [instance];
        }
      }
      assert instances[..|instances|] == instances;
    }

    /** processInstances: the header, then per instance its line and, unless in dry run,
        one termination whose outcome line follows; a failure does not stop the loop. */
    method ProcessInstances(now: int, instances: seq<Instance>) returns (message: seq<Line>)
      requires Launched(instances)
      modifies ec2
      ensures message == ReportFor(cfg.dryRun, now, instances, old(ec2.terminations))
      ensures ec2.calls == old(ec2.calls) + TerminateCalls(cfg.dryRun, instances)
      ensures ec2.terminations == if cfg.dryRun then old(ec2.terminations) else Drop(old(ec2.terminations), |instances|)
      ensures ec2.pages == old(ec2.pages)
    {
      ghost var script := ec2.terminations;
      ghost var calls0 := ec2.calls;
      var builder := new ReportBuilder();
      builder.WriteLine(Header(|instances|));
      for i := 0 to |instances|
        invariant builder.lines == [Header(|instances|)] + Entries(cfg.dryRun, now, instances[..i], script)
        invariant ec2.calls == calls0 + TerminateCalls(cfg.dryRun, instances[..i])
        invariant ec2.terminations == if cfg.dryRun then script else Drop(script, i)
        invariant ec2.pages == old(ec2.pages)
      {
        var instance := instances[i];
        EntriesStep(cfg.dryRun, now, instances, i, script, [Header(|instances|)], calls0);
        ResponseAfter(script, i);
        ReportInstance(now, instance, builder);
      }
      assert instances[..|instances|] == instances;
      message := builder.lines;
    }

    /** The body of processInstances' loop for one instance: its line, then, unless in
        dry run, its termination. */
    method ReportInstance(now: int, instance: Instance, builder: ReportBuilder)
      requires instance.launchTime.Some?
      modifies ec2, builder
      ensures builder.lines == old(builder.lines) + [FoundLine(instance, now)]
                + (if cfg.dryRun then [] else [OutcomeLine(instance.id, Next(old(ec2.terminations)))])
      ensures ec2.calls == old(ec2.calls) + (if cfg.dryRun then [] else [Terminate([instance.id])])
      ensures ec2.terminations == if cfg.dryRun then old(ec2.terminations) else Rest(old(ec2.terminations))
      ensures ec2.pages == old(ec2.pages)
    {
      builder.WriteLine(Found(instance.id, instance.instanceType, now - instance.launchTime.value));
      if !cfg.dryRun {
        TerminateInstance(instance.id, builder);
      }
    }

    /** terminateInstance: one TerminateInstances call for the single id; its outcome
        goes into the report, never further. */
    method TerminateInstance(instanceId: string, builder: ReportBuilder)
      modifies ec2, builder
      ensures builder.lines == old(builder.lines) + [OutcomeLine(instanceId, Next(old(ec2.terminations)))]
      ensures ec2.calls == old(ec2.calls) + [Terminate([instanceId])]
      ensures ec2.terminations == Rest(old(ec2.terminations)) && ec2.pages == old(ec2.pages)
    {
      var result := ec2.TerminateInstances([instanceId]);
      if result.CallErr? {
        builder.WriteLine(TerminateFailed(instanceId, result.reason));
      } else {
        builder.WriteLine(Terminated(instanceId));
      }
    }

    /** sendNotification: nothing without a topic, otherwise one publication; a publish
        error is swallowed. */
    method SendNotification(message: seq<Line>)
      modifies sns
      ensures sns.published == old(sns.published) + Notifications(cfg.snsTopicArn, message)
      ensures sns.responses == if cfg.snsTopicArn == "" then old(sns.responses) else Rest(old(sns.responses))
    {
      if cfg.snsTopicArn == "" {
        return;
      }
      var _ := sns.Publish(cfg.snsTopicArn, AlertSubject, message);
    }

    /** RunCheck: evaluate; when something is flagged, remediate and notify. */
    method RunCheck(now: int) returns (ghost filters: seq<Filter>)
      requires ec2.pages != []
      requires LaunchTimesKnown(cfg.targets, InstancesOf(ec2.pages))
      modifies ec2, sns
      ensures Filters.IsFilterListFor(cfg, filters)
      ensures ec2.calls == old(ec2.calls) + DescribeLog(filters, PagesRequested(old(ec2.pages)))
                                         + CycleTerminations(cfg, now, old(ec2.pages))
      ensures sns.published == old(sns.published) + CycleNotifications(cfg, now, old(ec2.pages), old(ec2.terminations))
    {
      ghost var pages0 := ec2.pages;
      var found;
      found, filters := FindLongRunningInstances(now);
      if |found| == 0 {
        return;
      }
      ViolatorsHaveLaunchTimes(cfg.targets, now, pages0);
      var message := ProcessInstances(now, found);
      SendNotification(message);
    }
  }
}
