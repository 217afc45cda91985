/**
 * Policy matching and the runtime verdict (internal/checker/checker.go:137-151, 214-255):
 * does an instance satisfy a target's selectors, and is it flagged by the first target
 * it satisfies.
 */
module Matcher {
  import opened Wrappers
  import opened Configuration
  import opened Aws
  import Glob

  /** Nanoseconds in an hour: the unit of launch times and of the clock is the nanosecond. */
  const NanosPerHour: int := 3_600_000_000_000

  /** A tag whose key is "Name" and whose value is present. */
  predicate IsNameTag(t: Tag)
  {
    t.key == Some("Name") && t.value.Some?
  }

  /** getInstanceName: the value of the first Name tag, or "" when there is none. */
  function GetInstanceName(tags: seq<Tag>): (name: string)
    ensures (forall i | 0 <= i < |tags| :: !IsNameTag(tags[i])) ==> name == ""
    ensures forall i | 0 <= i < |tags| && IsNameTag(tags[i]) && (forall j | 0 <= j < i :: !IsNameTag(tags[j])) ::
              name == tags[i].value.value
  {
    if tags == [] then ""
    else if IsNameTag(tags[0]) then tags[0].value.value
    else
      var name := GetInstanceName(tags[1..]);
      NameStep(tags, name);
      name
  }

  /** A first tag that is not a Name tag leaves the answer to the rest of the tags. */
  lemma NameStep(tags: seq<Tag>, name: string)
    requires tags != [] && !IsNameTag(tags[0])
    requires var rest := tags[1..];
      && ((forall i | 0 <= i < |rest| :: !IsNameTag(rest[i])) ==> name == "")
      && (forall i | 0 <= i < |rest| && IsNameTag(rest[i]) && (forall j | 0 <= j < i :: !IsNameTag(rest[j])) ::
            name == rest[i].value.value)
    ensures (forall i | 0 <= i < |tags| :: !IsNameTag(tags[i])) ==> name == ""
    ensures forall i | 0 <= i < |tags| && IsNameTag(tags[i]) && (forall j | 0 <= j < i :: !IsNameTag(tags[j])) ::
              name == tags[i].value.value
  {
    var rest := tags[1..];
    assert forall i | 0 <= i < |rest| :: rest[i] == tags[i + 1];
    if forall i | 0 <= i < |tags| :: !IsNameTag(tags[i]) {
      assert forall i | 0 <= i < |rest| :: !IsNameTag(rest[i]);
    }
    forall i | 0 <= i < |tags| && IsNameTag(tags[i]) && (forall j | 0 <= j < i :: !IsNameTag(tags[j]))
      ensures name == tags[i].value.value
    {
      assert i > 0;
      assert forall j | 0 <= j < i - 1 :: !IsNameTag(rest[j]);
      assert rest[i - 1] == tags[i];
    }
  }

  /** A tag that carries both a key and a value, for key `k`. */
  predicate IsTagFor(t: Tag, k: string)
  {
    t.key == Some(k) && t.value.Some?
  }

  /** The tag map matchesTarget builds: tags without key or value are skipped,
      a later tag with the same key overwrites an earlier one. */
  function TagMap(tags: seq<Tag>): (m: map<string, string>)
    ensures forall k :: k in m <==> exists i | 0 <= i < |tags| :: IsTagFor(tags[i], k)
    ensures forall k, i | 0 <= i < |tags| && IsTagFor(tags[i], k) && (forall j | i < j < |tags| :: !IsTagFor(tags[j], k)) ::
              k in m && m[k] == tags[i].value.value
  {
    if tags == [] then map[]
    else
      var front := tags[..|tags| - 1];
      var t := tags[|tags| - 1];
      var m := TagMap(front);
      var r := if t.key.Some? && t.value.Some? then m[t.key.value := t.value.value] else m;
      TagMapStep(tags, m, r);
      r
  }

  /** One more tag: it sets its key when complete, and leaves every other key as it was. */
  lemma TagMapStep(tags: seq<Tag>, m: map<string, string>, r: map<string, string>)
    requires tags != []
    requires var front := tags[..|tags| - 1];
      && (forall k :: k in m <==> exists i | 0 <= i < |front| :: IsTagFor(front[i], k))
      && (forall k, i | 0 <= i < |front| && IsTagFor(front[i], k) && (forall j | i < j < |front| :: !IsTagFor(front[j], k)) ::
            k in m && m[k] == front[i].value.value)
    requires var t := tags[|tags| - 1];
      r == if t.key.Some? && t.value.Some? then m[t.key.value := t.value.value] else m
    ensures forall k :: k in r <==> exists i | 0 <= i < |tags| :: IsTagFor(tags[i], k)
    ensures forall k, i | 0 <= i < |tags| && IsTagFor(tags[i], k) && (forall j | i < j < |tags| :: !IsTagFor(tags[j], k)) ::
              k in r && r[k] == tags[i].value.value
  {
    var n := |tags| - 1;
    var front := tags[..n];
    assert forall i | 0 <= i < n :: front[i] == tags[i];
    forall k ensures k in r <==> exists i | 0 <= i < |tags| :: IsTagFor(tags[i], k) {
      if IsTagFor(tags[n], k) {
        assert k in r;
      } else if k in r {
        assert k in m;
        var i :| 0 <= i < |front| && IsTagFor(front[i], k);
        assert IsTagFor(tags[i], k);
      }
    }
  }

  /** Go's map index: an absent key reads as the zero value "". */
  function Lookup(m: map<string, string>, k: string): string
  {
    if k in m then m[k] else ""
  }

  /** matchesTarget. A match needs a well-formed Name pattern that matches the Name tag,
      and every required tag with a non-empty value present with that value. */
  predicate MatchesTarget(inst: Instance, t: Target)
    ensures MatchesTarget(inst, t) && t.name != "" ==>
              Glob.WellFormed(t.name) && Glob.Matches(t.name, GetInstanceName(inst.tags))
    ensures MatchesTarget(inst, t) ==>
              forall k | k in t.tags && t.tags[k] != "" ::
                exists i | 0 <= i < |inst.tags| :: IsTagFor(inst.tags[i], k) && inst.tags[i].value.value == t.tags[k]
  {
    TagsPresent(inst.tags, t.tags);
    && (t.instanceType == "" || inst.instanceType == t.instanceType)
    && (t.name == "" || Glob.Match(t.name, GetInstanceName(inst.tags)) == Glob.Matched(true))
    && (|t.tags| == 0 || forall k | k in t.tags :: Lookup(TagMap(inst.tags), k) == t.tags[k])
  }

  /** A required non-empty value read from the tag map comes from a complete tag. */
  lemma TagsPresent(tags: seq<Tag>, required: map<string, string>)
    ensures forall k | k in required && required[k] != "" && Lookup(TagMap(tags), k) == required[k] ::
              exists i | 0 <= i < |tags| :: IsTagFor(tags[i], k) && tags[i].value.value == required[k]
  {
    var m := TagMap(tags);
    forall k | k in required && required[k] != "" && Lookup(m, k) == required[k]
      ensures exists i | 0 <= i < |tags| :: IsTagFor(tags[i], k) && tags[i].value.value == required[k]
    {
      assert k in m;
      var i :| 0 <= i < |tags| && IsTagFor(tags[i], k);
      var last := LastTagFor(tags, k, i);
      assert m[k] == tags[last].value.value;
    }
  }

  /** Reference reading of a tag key over the instance's tag list: the value of its
      last complete tag, or "" when it has none. */
  predicate ReadsAs(tags: seq<Tag>, k: string, v: string)
  {
    || (v == "" && forall i | 0 <= i < |tags| :: !IsTagFor(tags[i], k))
    || exists i | 0 <= i < |tags| ::
         && IsTagFor(tags[i], k) && tags[i].value.value == v
         && forall j | i < j < |tags| :: !IsTagFor(tags[j], k)
  }

  /** The tag map read through Go's zero value agrees with the reference reading. */
  lemma {:induction false} LookupReadsAs(tags: seq<Tag>, k: string, v: string)
    ensures Lookup(TagMap(tags), k) == v <==> ReadsAs(tags, k, v)
  {
    var m := TagMap(tags);
    if k in m {
      var i :| 0 <= i < |tags| && IsTagFor(tags[i], k);
      var last := LastTagFor(tags, k, i);
      forall i' | 0 <= i' < |tags| && IsTagFor(tags[i'], k) && (forall j | i' < j < |tags| :: !IsTagFor(tags[j], k))
        ensures i' == last
      {
        assert IsTagFor(tags[last], k);
      }
      assert m[k] == tags[last].value.value;
    }
  }

  /** Every complete tag for `k` at or after `from` is followed by a last one. */
  lemma {:induction false} LastTagFor(tags: seq<Tag>, k: string, from: nat) returns (last: nat)
    requires from < |tags| && IsTagFor(tags[from], k)
    ensures from <= last < |tags| && IsTagFor(tags[last], k)
    ensures forall j | last < j < |tags| :: !IsTagFor(tags[j], k)
    decreases |tags| - from
  {
    if exists j | from < j < |tags| :: IsTagFor(tags[j], k) {
      var j :| from < j < |tags| && IsTagFor(tags[j], k);
      last := LastTagFor(tags, k, j);
    } else {
      last := from;
    }
  }

  /** What matching a target means: the type is equal when set, the Name-tag glob matches
      when set (a malformed pattern never matches), and every required tag reads as its
      required value, an absent tag reading as "". */
  lemma {:induction false} MatchesTargetIff(inst: Instance, t: Target)
    ensures MatchesTarget(inst, t) <==>
      && (t.instanceType != "" ==> inst.instanceType == t.instanceType)
      && (t.name != "" ==> Glob.WellFormed(t.name) && Glob.Matches(t.name, GetInstanceName(inst.tags)))
      && (forall k | k in t.tags :: ReadsAs(inst.tags, k, t.tags[k]))
  {
    forall k | k in t.tags
      ensures Lookup(TagMap(inst.tags), k) == t.tags[k] <==> ReadsAs(inst.tags, k, t.tags[k])
    {
      LookupReadsAs(inst.tags, k, t.tags[k]);
    }
  }

  /** A target with no selector matches every instance. */
  lemma UnconstrainedTargetMatchesAll(inst: Instance, t: Target)
    requires t.instanceType == "" && t.name == "" && t.tags == map[]
    ensures MatchesTarget(inst, t)
  {
  }

  /** A required tag whose value is "" is satisfied by an instance without that tag:
      Go's map index reads the missing key as "". */
  lemma AbsentTagReadsEmpty(inst: Instance, t: Target, k: string)
    requires t.instanceType == "" && t.name == "" && t.tags == map[k := ""]
    requires forall i | 0 <= i < |inst.tags| :: inst.tags[i].key != Some(k)
    ensures MatchesTarget(inst, t)
  {
    MatchesTargetIff(inst, t);
  }

  /** The index of the first target the instance matches. */
  function FirstMatch(targets: seq<Target>, inst: Instance): (r: Option<nat>)
    ensures r.Some? ==> r.value < |targets| && MatchesTarget(inst, targets[r.value])
                        && forall j | 0 <= j < r.value :: !MatchesTarget(inst, targets[j])
    ensures r.None? <==> forall j | 0 <= j < |targets| :: !MatchesTarget(inst, targets[j])
  {
    if targets == [] then None
    else if MatchesTarget(inst, targets[0]) then Some(0)
    else
      var rest := FirstMatch(targets[1..], inst);
      FirstMatchStep(targets, inst, rest);
      if rest.None? then None else Some(rest.value + 1)
  }

  /** A first target that does not match shifts the answer for the others by one. */
  lemma FirstMatchStep(targets: seq<Target>, inst: Instance, rest: Option<nat>)
    requires targets != [] && !MatchesTarget(inst, targets[0])
    requires var ts := targets[1..];
      && (rest.Some? ==> rest.value < |ts| && MatchesTarget(inst, ts[rest.value])
                         && forall j | 0 <= j < rest.value :: !MatchesTarget(inst, ts[j]))
      && (rest.None? <==> forall j | 0 <= j < |ts| :: !MatchesTarget(inst, ts[j]))
    ensures rest.Some? ==> rest.value + 1 < |targets| && MatchesTarget(inst, targets[rest.value + 1])
                           && forall j | 0 <= j < rest.value + 1 :: !MatchesTarget(inst, targets[j])
    ensures rest.None? <==> forall j | 0 <= j < |targets| :: !MatchesTarget(inst, targets[j])
  {
    var ts := targets[1..];
    assert forall j | 0 <= j < |ts| :: ts[j] == targets[j + 1];
    if rest.Some? {
      forall j | 0 <= j < rest.value + 1 ensures !MatchesTarget(inst, targets[j]) {
        if j > 0 { assert targets[j] == ts[j - 1]; }
      }
    }
    if forall j | 0 <= j < |ts| :: !MatchesTarget(inst, ts[j]) {
      forall j | 0 <= j < |targets| ensures !MatchesTarget(inst, targets[j]) {
        if j > 0 { assert targets[j] == ts[j - 1]; }
      }
    }
  }

  /** Some target selects the instance. */
  predicate MatchesAny(targets: seq<Target>, inst: Instance)
  {
    exists i | 0 <= i < |targets| :: MatchesTarget(inst, targets[i])
  }

  /** time.Since(launch).Hours() > maxHours, in exact arithmetic. */
  predicate Exceeds(launch: int, now: int, maxHours: real)
  {
    (now - launch) as real / NanosPerHour as real > maxHours
  }

  /** checkInstanceRuntime: only the first matching target is consulted, its threshold
      compared strictly; no matching target means not flagged. The launch time is
      dereferenced only once a target matches. */
  function CheckInstanceRuntime(targets: seq<Target>, inst: Instance, now: int): (flagged: bool)
    requires MatchesAny(targets, inst) ==> inst.launchTime.Some?
    ensures flagged <==> match FirstMatch(targets, inst)
      case None => false
      case Some(i) => Exceeds(inst.launchTime.value, now, targets[i].maxRuntimeHours)
  {
    if targets == [] then false
    else if !MatchesTarget(inst, targets[0]) then
      assert MatchesAny(targets[1..], inst) ==> MatchesAny(targets, inst) by {
        if MatchesAny(targets[1..], inst) {
          var i :| 0 <= i < |targets[1..]| && MatchesTarget(inst, targets[1..][i]);
          assert MatchesTarget(inst, targets[i + 1]);
        }
      }
      CheckInstanceRuntime(targets[1..], inst, now)
    else
      assert MatchesTarget(inst, targets[0]);
      Exceeds(inst.launchTime.value, now, targets[0].maxRuntimeHours)
  }

  /** First match wins: the verdict is that of the first matching target alone. */
  lemma {:induction false} FirstMatchWins(targets: seq<Target>, inst: Instance, now: int, i: nat)
    requires i < |targets| && MatchesTarget(inst, targets[i])
    requires forall j | 0 <= j < i :: !MatchesTarget(inst, targets[j])
    requires inst.launchTime.Some?
    ensures CheckInstanceRuntime(targets, inst, now) <==> Exceeds(inst.launchTime.value, now, targets[i].maxRuntimeHours)
  {
    if i > 0 {
      assert !MatchesTarget(inst, targets[0]);
      assert targets[1..][i - 1] == targets[i];
      assert forall j | 0 <= j < i - 1 :: targets[1..][j] == targets[j + 1];
      FirstMatchWins(targets[1..], inst, now, i - 1);
    }
  }

  /** Targets after a matching one are never consulted, whatever their thresholds. */
  lemma {:induction false} LaterTargetsIgnored(targets: seq<Target>, later: seq<Target>, inst: Instance, now: int)
    requires MatchesAny(targets, inst) && inst.launchTime.Some?
    ensures CheckInstanceRuntime(targets + later, inst, now) == CheckInstanceRuntime(targets, inst, now)
  {
    var i :| 0 <= i < |targets| && MatchesTarget(inst, targets[i]);
    var f := FirstMatch(targets, inst);
    assert f.Some?;
    var k := f.value;
    assert (targets + later)[k] == targets[k];
    assert forall j | 0 <= j < k :: (targets + later)[j] == targets[j];
    FirstMatchWins(targets + later, inst, now, k);
    FirstMatchWins(targets, inst, now, k);
  }

  /** An instance no target selects is never flagged. */
  lemma NoMatchNotFlagged(targets: seq<Target>, inst: Instance, now: int)
    requires !MatchesAny(targets, inst)
    ensures !CheckInstanceRuntime(targets, inst, now)
  {
    assert FirstMatch(targets, inst).None?;
  }

  /** The threshold is strict: a runtime of exactly maxRuntimeHours is not flagged,
      one nanosecond more is. */
  lemma StrictThreshold(targets: seq<Target>, inst: Instance, now: int, i: nat)
    requires i < |targets| && MatchesTarget(inst, targets[i])
    requires forall j | 0 <= j < i :: !MatchesTarget(inst, targets[j])
    requires inst.launchTime.Some?
    requires (now - inst.launchTime.value) as real == targets[i].maxRuntimeHours * NanosPerHour as real
    ensures !CheckInstanceRuntime(targets, inst, now)
    ensures CheckInstanceRuntime(targets, inst, now + 1)
  {
    FirstMatchWins(targets, inst, now, i);
    FirstMatchWins(targets, inst, now + 1, i);
    ExceedsIff(inst.launchTime.value, now, targets[i].maxRuntimeHours);
    ExceedsIff(inst.launchTime.value, now + 1, targets[i].maxRuntimeHours);
  }

  /** The hour comparison is the nanosecond comparison against the threshold in nanoseconds. */
  lemma ExceedsIff(launch: int, now: int, maxHours: real)
    ensures Exceeds(launch, now, maxHours) <==> (now - launch) as real > maxHours * NanosPerHour as real
  {
    var h := NanosPerHour as real;
    var r := (now - launch) as real;
    assert r / h * h == r;
    if r / h > maxHours {
      assert r / h * h > maxHours * h;
    } else {
      assert r / h * h <= maxHours * h;
    }
  }
}
