/**
 * What one cycle of the checker promises (internal/checker/checker.go:42-210),
 * stated over the functions that the methods of Checker.Checker are proved against.
 */
module CheckerProperties {
  import opened Wrappers
  import opened Configuration
  import opened Aws
  import opened Report
  import opened Matcher
  import opened Checker

  // ---------------------------------------------------------------------------
  // findLongRunningInstances

  /** An instance is reported exactly when no page failed, some page delivered it and
      checkInstanceRuntime flags it: one failing page discards every earlier find. */
  lemma EvaluateMember(targets: seq<Target>, now: int, pages: seq<PageResult>, x: Instance)
    requires LaunchTimesKnown(targets, InstancesOf(pages))
    ensures x in Evaluate(targets, now, pages) <==>
              !HasError(pages) && x in InstancesOf(pages) && CheckInstanceRuntime(targets, x, now)
  {
    ViolatorsMember(targets, now, InstancesOf(pages), x);
  }

  /** Page order is kept: the finds of a run of good pages are those of its first part
      followed by those of the rest. */
  lemma EvaluateAppend(targets: seq<Target>, now: int, a: seq<PageResult>, b: seq<PageResult>)
    requires !HasError(a + b)
    requires LaunchTimesKnown(targets, InstancesOf(a + b))
    ensures !HasError(a) && !HasError(b)
    ensures LaunchTimesKnown(targets, InstancesOf(a)) && LaunchTimesKnown(targets, InstancesOf(b))
    ensures Evaluate(targets, now, a + b) == Evaluate(targets, now, a) + Evaluate(targets, now, b)
  {
    assert !HasError(a) by {
      forall j | 0 <= j < |a| ensures a[j].PageOk? { assert (a + b)[j] == a[j]; }
    }
    assert !HasError(b) by {
      forall j | 0 <= j < |b| ensures b[j].PageOk? { assert (a + b)[|a| + j] == b[j]; }
    }
    InstancesOfAppend(a, b);
    ViolatorsAppend(targets, now, InstancesOf(a), InstancesOf(b));
  }

  // ---------------------------------------------------------------------------
  // processInstances and terminateInstance

  /** In dry run the entries are one line per instance. */
  lemma {:induction false} DryRunEntries(now: int, xs: seq<Instance>, script: seq<CallResult>)
    requires Launched(xs)
    ensures |Entries(true, now, xs, script)| == |xs|
    ensures forall k | 0 <= k < |xs| :: Entries(true, now, xs, script)[k] == FoundLine(xs[k], now)
  {
    if xs != [] {
      var n := |xs| - 1;
      var front := xs[..n];
      DryRunEntries(now, front, script);
      var e := Entries(true, now, xs, script);
      assert e == Entries(true, now, front, script) + [FoundLine(xs[n], now)];
      forall k | 0 <= k < |xs| ensures e[k] == FoundLine(xs[k], now) {
        if k < n { assert xs[k] == front[k]; }
      }
    }
  }

  /** Otherwise each instance's line is followed by the outcome of its own termination. */
  lemma {:induction false} LiveEntries(now: int, xs: seq<Instance>, script: seq<CallResult>)
    requires Launched(xs)
    ensures |Entries(false, now, xs, script)| == 2 * |xs|
    ensures forall k | 0 <= k < |xs| ::
              && Entries(false, now, xs, script)[2 * k] == FoundLine(xs[k], now)
              && Entries(false, now, xs, script)[2 * k + 1] == OutcomeLine(xs[k].id, ResponseAt(script, k))
  {
    if xs != [] {
      var n := |xs| - 1;
      var front := xs[..n];
      LiveEntries(now, front, script);
      var e := Entries(false, now, xs, script);
      var f := Entries(false, now, front, script);
      assert e == f + [FoundLine(xs[n], now)] + [OutcomeLine(xs[n].id, ResponseAt(script, n))];
      forall k | 0 <= k < |xs|
        ensures e[2 * k] == FoundLine(xs[k], now)
        ensures e[2 * k + 1] == OutcomeLine(xs[k].id, ResponseAt(script, k))
      {
        if k < n {
          assert xs[k] == front[k];
          assert e[2 * k] == f[2 * k] && e[2 * k + 1] == f[2 * k + 1];
        }
      }
    }
  }

  /** The report: the `Found N` header, then per instance its line and, unless in dry run,
      the outcome of its termination. */
  lemma ReportShape(dryRun: bool, now: int, xs: seq<Instance>, script: seq<CallResult>)
    requires Launched(xs)
    ensures ReportFor(dryRun, now, xs, script)[0] == Header(|xs|)
    ensures |ReportFor(dryRun, now, xs, script)| == 1 + (if dryRun then |xs| else 2 * |xs|)
    ensures dryRun ==> forall k | 0 <= k < |xs| :: ReportFor(dryRun, now, xs, script)[1 + k] == FoundLine(xs[k], now)
    ensures !dryRun ==> forall k | 0 <= k < |xs| ::
              && ReportFor(dryRun, now, xs, script)[1 + 2 * k] == FoundLine(xs[k], now)
              && ReportFor(dryRun, now, xs, script)[2 + 2 * k] == OutcomeLine(xs[k].id, ResponseAt(script, k))
  {
    var e := Entries(dryRun, now, xs, script);
    var r := ReportFor(dryRun, now, xs, script);
    assert r == [Header(|xs|)] + e;
    if dryRun {
      DryRunEntries(now, xs, script);
      forall k | 0 <= k < |xs| ensures r[1 + k] == FoundLine(xs[k], now) {
        assert r[1 + k] == e[k];
      }
    } else {
      LiveEntries(now, xs, script);
      forall k | 0 <= k < |xs|
        ensures r[1 + 2 * k] == FoundLine(xs[k], now)
        ensures r[2 + 2 * k] == OutcomeLine(xs[k].id, ResponseAt(script, k))
      {
        assert r[1 + 2 * k] == e[2 * k] && r[2 + 2 * k] == e[2 * k + 1];
      }
    }
  }

  /** A failed termination is reported and nothing else: two runs whose terminations
      answer alike except for the k-th give reports that differ at most in line 2 + 2k. */
  lemma FailureIsolated(now: int, xs: seq<Instance>, s1: seq<CallResult>, s2: seq<CallResult>, k: nat)
    requires Launched(xs)
    requires forall j | 0 <= j < |xs| && j != k :: ResponseAt(s1, j) == ResponseAt(s2, j)
    ensures |ReportFor(false, now, xs, s1)| == |ReportFor(false, now, xs, s2)|
    ensures forall i | 0 <= i < |ReportFor(false, now, xs, s1)| && i != 2 + 2 * k ::
              ReportFor(false, now, xs, s1)[i] == ReportFor(false, now, xs, s2)[i]
  {
    var r1 := ReportFor(false, now, xs, s1);
    var r2 := ReportFor(false, now, xs, s2);
    ReportShape(false, now, xs, s1);
    ReportShape(false, now, xs, s2);
    forall i | 0 <= i < |r1| && i != 2 + 2 * k ensures r1[i] == r2[i] {
      if i > 0 {
        var j := (i - 1) / 2;
        assert 0 <= j < |xs|;
        if i == 1 + 2 * j {
          assert r1[1 + 2 * j] == FoundLine(xs[j], now) == r2[1 + 2 * j];
        } else {
          assert i == 2 + 2 * j && j != k;
          assert r1[2 + 2 * j] == OutcomeLine(xs[j].id, ResponseAt(s1, j));
          assert r2[2 + 2 * j] == OutcomeLine(xs[j].id, ResponseAt(s2, j));
        }
      }
    }
  }

  /** The terminations: none in dry run, otherwise exactly one single-id call per
      instance, in order, whatever the earlier calls answered. */
  lemma {:induction false} TerminateCallsShape(dryRun: bool, xs: seq<Instance>)
    ensures |TerminateCalls(dryRun, xs)| == if dryRun then 0 else |xs|
    ensures !dryRun ==> forall k | 0 <= k < |xs| :: TerminateCalls(dryRun, xs)[k] == Terminate([xs[k].id])
  {
    if !dryRun && xs != [] {
      var front := xs[..|xs| - 1];
      TerminateCallsShape(dryRun, front);
      forall k | 0 <= k < |xs| - 1 ensures xs[k] == front[k] { }
    }
  }

  /** Three instances, the second of whose terminations fails: all three are still
      attempted and the report records each outcome. */
  lemma SecondOfThreeFails(now: int, a: Instance, b: Instance, c: Instance, e: string)
    requires a.launchTime.Some? && b.launchTime.Some? && c.launchTime.Some?
    ensures ReportFor(false, now, [a, b, c], [CallOk, CallErr(e), CallOk]) ==
              [Header(3), FoundLine(a, now), Terminated(a.id), FoundLine(b, now), TerminateFailed(b.id, e),
               FoundLine(c, now), Terminated(c.id)]
    ensures TerminateCalls(false, [a, b, c]) == [Terminate([a.id]), Terminate([b.id]), Terminate([c.id])]
  {
    var xs := [a, b, c];
    var script := [CallOk, CallErr(e), CallOk];
    ReportShape(false, now, xs, script);
    TerminateCallsShape(false, xs);
    var report := ReportFor(false, now, xs, script);
    assert xs[0] == a && xs[1] == b && xs[2] == c;
    assert ResponseAt(script, 0) == CallOk && ResponseAt(script, 1) == CallErr(e) && ResponseAt(script, 2) == CallOk;
    assert report[1] == FoundLine(a, now) && report[2] == Terminated(a.id);
    assert report[3] == FoundLine(b, now) && report[4] == TerminateFailed(b.id, e);
    assert report[5] == FoundLine(c, now) && report[6] == Terminated(c.id);
  }

  // ---------------------------------------------------------------------------
  // sendNotification and RunCheck

  /** Without a topic nothing is published; with one, exactly one publication under the
      alert subject. */
  lemma NotificationsIff(topicArn: string, message: seq<Line>)
    ensures Notifications(topicArn, message) == [] <==> topicArn == ""
    ensures topicArn != "" ==> Notifications(topicArn, message) == [Publication(topicArn, AlertSubject, message)]
  {
  }

  /** A cycle that flags nothing terminates nothing and publishes nothing. A cycle that
      flags something terminates unless in dry run, and publishes one report headed by
      the count of flagged instances exactly when a topic is configured. */
  lemma CycleOutcome(cfg: Config, now: int, pages: seq<PageResult>, script: seq<CallResult>)
    requires LaunchTimesKnown(cfg.targets, InstancesOf(pages))
    ensures var found := Evaluate(cfg.targets, now, pages);
      && (found == [] ==> CycleNotifications(cfg, now, pages, script) == [] && CycleTerminations(cfg, now, pages) == [])
      && (CycleTerminations(cfg, now, pages) != [] <==> found != [] && !cfg.dryRun)
      && (CycleNotifications(cfg, now, pages, script) != [] <==> found != [] && cfg.snsTopicArn != "")
      && |CycleNotifications(cfg, now, pages, script)| <= 1
      && (CycleNotifications(cfg, now, pages, script) != [] ==>
            var p := CycleNotifications(cfg, now, pages, script)[0];
            p.topicArn == cfg.snsTopicArn && p.subject == AlertSubject && p.message[0] == Header(|found|))
  {
    var found := Evaluate(cfg.targets, now, pages);
    TerminateCallsShape(cfg.dryRun, found);
  }

  /** The scenario of the checker's own tests: one running t2.micro instance launched 25
      hours ago under a 24-hour t2.micro target is flagged; it is terminated by a single-id
      call unless in dry run, and the report is published to the configured topic. */
  lemma OverdueInstanceScenario(cfg: Config, now: int, inst: Instance, pages: seq<PageResult>)
    requires cfg.targets == [Target("t2.micro", "", map[], 24.0)] && cfg.snsTopicArn != ""
    requires inst.instanceType == "t2.micro" && inst.launchTime == Some(now - 25 * NanosPerHour)
    requires pages == [PageOk(Page([Reservation([inst])]))]
    ensures LaunchTimesKnown(cfg.targets, InstancesOf(pages))
    ensures Evaluate(cfg.targets, now, pages) == [inst]
    ensures CycleTerminations(cfg, now, pages) == if cfg.dryRun then [] else [Terminate([inst.id])]
    ensures forall script :: CycleNotifications(cfg, now, pages, script)
              == [Publication(cfg.snsTopicArn, AlertSubject, ReportFor(cfg.dryRun, now, [inst], script))]
  {
    assert InstancesOf(pages) == [inst] by {
      assert pages[1..] == [];
      assert ReservationInstances([Reservation([inst])]) == [inst];
    }
    var t := cfg.targets[0];
    assert MatchesTarget(inst, t);
    assert FirstMatch(cfg.targets, inst) == Some(0);
    ExceedsIff(inst.launchTime.value, now, t.maxRuntimeHours);
    assert CheckInstanceRuntime(cfg.targets, inst, now);
    assert [inst][..0] == [];
    assert Violators(cfg.targets, now, [inst]) == [inst];
    assert TerminateCalls(false, [inst]) == [Terminate([inst.id])];
    assert !HasError(pages);
  }
}
