/**
 * `latest_run_per_day` (scripts/export_runs_truth.py): of the workflow runs
 * whose start lies within [since, until], keep per calendar day the one with
 * the latest `run_started_at` text, and return them in day order.
 */
module RunsTruth {

  /**
   * A workflow run. `startedAt` is `run_started_at` with "" for a missing or
   * empty value; `day` is the calendar day that timestamp parses to, as a day
   * number, so that comparing days compares dates.
   */
  datatype Run = Run(startedAt: string, day: int, id: int)

  /** Python's `<` on strings: lexicographic by code point. */
  predicate Less(a: string, b: string)
    decreases |a|
  {
    b != [] && (a == [] || a[0] < b[0] || (a[0] == b[0] && Less(a[1..], b[1..])))
  }

  lemma {:induction false} LessIrreflexive(a: string)
    ensures !Less(a, a)
    decreases |a|
  {
    if a != [] {
      LessIrreflexive(a[1..]);
    }
  }

  lemma {:induction false} LessTransitive(a: string, b: string, c: string)
    requires Less(a, b) && Less(b, c)
    ensures Less(a, c)
    decreases |a|
  {
    if a != [] && a[0] == b[0] && b[0] == c[0] {
      LessTransitive(a[1..], b[1..], c[1..]);
    }
  }

  /** Two different strings are ordered one way or the other, never both. */
  lemma {:induction false} LessTotal(a: string, b: string)
    ensures a != b ==> Less(a, b) || Less(b, a)
    ensures !(Less(a, b) && Less(b, a))
    decreases |a|
  {
    if a != [] && b != [] && a[0] == b[0] {
      LessTotal(a[1..], b[1..]);
      if a[1..] == b[1..] {
        assert a == [a[0]] + a[1..] && b == [b[0]] + b[1..];
      }
    }
  }

  /** A run the selection considers: it has a start time on a day inside the range. */
  predicate Eligible(run: Run, since: int, until: int)
  {
    run.startedAt != [] && since <= run.day <= until
  }

  /** One run offered to the per-day choice: it replaces the current pick only if strictly later. */
  function Offer(selected: map<int, Run>, run: Run, since: int, until: int): map<int, Run>
  {
    if Eligible(run, since, until) && (run.day !in selected || Less(selected[run.day].startedAt, run.startedAt))
    then selected[run.day := run]
    else selected
  }

  /** The per-day choice after offering every run in order. */
  function Selected(runs: seq<Run>, since: int, until: int): map<int, Run>
    decreases |runs|
  {
    if runs == [] then map[]
    else Offer(Selected(runs[..|runs| - 1], since, until), runs[|runs| - 1], since, until)
  }

  /** Run `runs[i]` is the pick for its day: eligible, strictly later than every earlier run of that day, and no later run of that day is later than it. */
  ghost predicate PickAt(runs: seq<Run>, since: int, until: int, i: int)
  {
    && 0 <= i < |runs| && Eligible(runs[i], since, until)
    && (forall j :: 0 <= j < i && Eligible(runs[j], since, until) && runs[j].day == runs[i].day ==>
          Less(runs[j].startedAt, runs[i].startedAt))
    && (forall j :: i < j < |runs| && Eligible(runs[j], since, until) && runs[j].day == runs[i].day ==>
          !Less(runs[i].startedAt, runs[j].startedAt))
  }

  ghost predicate HasEligible(runs: seq<Run>, since: int, until: int, d: int)
  {
    exists i :: 0 <= i < |runs| && Eligible(runs[i], since, until) && runs[i].day == d
  }

  /**
   * A day is chosen exactly when one of its runs is eligible, and the run
   * chosen for it is the first run of that day with the latest start.
   */
  lemma {:induction false} SelectedSpec(runs: seq<Run>, since: int, until: int, d: int)
    ensures d in Selected(runs, since, until) <==> HasEligible(runs, since, until, d)
    ensures d in Selected(runs, since, until) ==>
      exists i :: PickAt(runs, since, until, i) && runs[i] == Selected(runs, since, until)[d] && runs[i].day == d
    decreases |runs|
  {
    if runs != [] {
      var front := runs[..|runs| - 1];
      var run := runs[|runs| - 1];
      var n := |front|;
      assert forall j :: 0 <= j < n ==> runs[j] == front[j];
      SelectedSpec(front, since, until, d);
      var before := Selected(front, since, until);
      var after := Selected(runs, since, until);
      assert after == Offer(before, run, since, until);
      if HasEligible(front, since, until, d) {
        var j :| 0 <= j < n && Eligible(front[j], since, until) && front[j].day == d;
        assert runs[j] == front[j];
      }
      if HasEligible(runs, since, until, d) && !(Eligible(run, since, until) && run.day == d) {
        var j :| 0 <= j < |runs| && Eligible(runs[j], since, until) && runs[j].day == d;
        assert j < n && front[j] == runs[j];
      }
      if d in after {
        if Eligible(run, since, until) && run.day == d && after[d] == run && (d !in before || Less(before[d].startedAt, run.startedAt)) {
          PickLast(runs, since, until, d);
        } else {
          var i :| PickAt(front, since, until, i) && front[i] == before[d] && front[i].day == d;
          assert after[d] == before[d];
          PickKept(runs, since, until, i);
        }
      }
    }
  }

  /** When the last run does not take over its day, the pick of the earlier runs stays the pick. */
  lemma PickKept(runs: seq<Run>, since: int, until: int, i: int)
    requires runs != []
    requires PickAt(runs[..|runs| - 1], since, until, i)
    requires var run := runs[|runs| - 1];
      Eligible(run, since, until) && run.day == runs[i].day ==> !Less(runs[i].startedAt, run.startedAt)
    ensures PickAt(runs, since, until, i)
  {
    var front := runs[..|runs| - 1];
    assert forall j :: 0 <= j < |front| ==> runs[j] == front[j];
  }

  /** When the last run takes over its day, it is the pick. */
  lemma PickLast(runs: seq<Run>, since: int, until: int, d: int)
    requires runs != []
    requires Eligible(runs[|runs| - 1], since, until) && runs[|runs| - 1].day == d
    requires var before := Selected(runs[..|runs| - 1], since, until);
      d !in before || Less(before[d].startedAt, runs[|runs| - 1].startedAt)
    requires var front := runs[..|runs| - 1];
      d in Selected(front, since, until) ==>
        exists i :: PickAt(front, since, until, i) && front[i] == Selected(front, since, until)[d] && front[i].day == d
    requires HasEligible(runs[..|runs| - 1], since, until, d) ==> d in Selected(runs[..|runs| - 1], since, until)
    ensures PickAt(runs, since, until, |runs| - 1)
  {
    var front := runs[..|runs| - 1];
    var run := runs[|runs| - 1];
    var before := Selected(front, since, until);
    assert forall j :: 0 <= j < |front| ==> runs[j] == front[j];
    forall j | 0 <= j < |front| && Eligible(runs[j], since, until) && runs[j].day == d
      ensures Less(runs[j].startedAt, run.startedAt)
    {
      assert HasEligible(front, since, until, d);
      var i :| PickAt(front, since, until, i) && front[i] == before[d] && front[i].day == d;
      var top := before[d].startedAt;
      assert front[j] == runs[j];
      if j < i {
        LessTransitive(runs[j].startedAt, top, run.startedAt);
      } else if j > i {
        assert !Less(front[i].startedAt, front[j].startedAt);
        LessTotal(top, runs[j].startedAt);
        if runs[j].startedAt != top {
          LessTransitive(runs[j].startedAt, top, run.startedAt);
        }
      }
    }
  }

  /** Of the eligible runs of a day, none starts later than the one chosen. */
  lemma ChosenIsLatest(runs: seq<Run>, since: int, until: int, d: int, j: int)
    requires d in Selected(runs, since, until)
    requires 0 <= j < |runs| && Eligible(runs[j], since, until) && runs[j].day == d
    ensures !Less(Selected(runs, since, until)[d].startedAt, runs[j].startedAt)
  {
    SelectedSpec(runs, since, until, d);
    var i :| PickAt(runs, since, until, i) && runs[i] == Selected(runs, since, until)[d] && runs[i].day == d;
    if j < i {
      LessTotal(runs[j].startedAt, runs[i].startedAt);
    } else if j == i {
      LessIrreflexive(runs[i].startedAt);
    }
  }

  /** A run without a start time is never chosen. */
  lemma {:induction false} UnstartedNeverChosen(runs: seq<Run>, since: int, until: int, d: int)
    requires d in Selected(runs, since, until)
    ensures Selected(runs, since, until)[d].startedAt != []
    ensures since <= d <= until && Selected(runs, since, until)[d].day == d
  {
    SelectedSpec(runs, since, until, d);
  }

  // ---------------------------------------------------------------------------
  // The imperative selection.

  predicate Increasing(days: seq<int>)
  {
    forall k, l :: 0 <= k < l < |days| ==> days[k] < days[l]
  }

  /** `days` with `d` inserted at its place. */
  function Insert(days: seq<int>, d: int): (r: seq<int>)
    requires Increasing(days) && d !in days
    ensures Increasing(r)
    ensures forall e :: e in r <==> e in days || e == d
    ensures |r| == |days| + 1
    decreases |days|
  {
    if days == [] then [d]
    else if d < days[0] then [d] + days
    else
      assert days[0] in days;
      forall e | e in days[1..]
        ensures days[0] < e
      {
        var l :| 0 <= l < |days[1..]| && days[1..][l] == e;
        assert days[l + 1] == e;
      }
      var rest := Insert(days[1..], d);
      assert forall e :: e in rest ==> days[0] < e;
      var r := [days[0]] + rest;
      forall k, l | 0 <= k < l < |r|
        ensures r[k] < r[l]
      {
        assert r[l] == rest[l - 1] && rest[l - 1] in rest;
        if k > 0 {
          assert r[k] == rest[k - 1];
        }
      }
      r
  }

  predicate Distinct(keys: seq<int>)
  {
    forall k, l :: 0 <= k < l < |keys| ==> keys[k] != keys[l]
  }

  /** `sorted(keys)` for the distinct keys of a dictionary, in its insertion order. */
  method SortedKeys(keys: seq<int>) returns (days: seq<int>)
    requires Distinct(keys)
    ensures Increasing(days)
    ensures forall d :: d in days <==> d in keys
  {
    days := [];
    for i := 0 to |keys|
      invariant Increasing(days)
      invariant forall d :: d in days <==> d in keys[..i]
    {
      assert keys[i] !in keys[..i];
      days := Insert(days, keys[i]);
      assert keys[..i + 1] == keys[..i] + [keys[i]];
    }
    assert keys[..|keys|] == keys;
  }

  /** `[selected[day] for day in days]`. */
  method Emit(selected: map<int, Run>, days: seq<int>) returns (chosen: seq<Run>)
    requires forall m :: 0 <= m < |days| ==> days[m] in selected
    ensures |chosen| == |days|
    ensures forall m :: 0 <= m < |days| ==> chosen[m] == selected[days[m]]
  {
    chosen := [];
    var k := 0;
    while k < |days|
      invariant 0 <= k <= |days|
      invariant |chosen| == k
      invariant forall m :: 0 <= m < k ==> chosen[m] == selected[days[m]]
    {
      chosen := chosen + [selected[days[k]]];
      k := k + 1;
    }
  }

  /**
   * `latest_run_per_day`: one run per day that has an eligible run, in
   * increasing day order, each the first of its day with the latest start.
   */
  method LatestRunPerDay(runs: seq<Run>, since: int, until: int) returns (chosen: seq<Run>)
    ensures Increasing(seq(|chosen|, k requires 0 <= k < |chosen| => chosen[k].day))
    ensures forall k :: 0 <= k < |chosen| ==>
      chosen[k].day in Selected(runs, since, until) && chosen[k] == Selected(runs, since, until)[chosen[k].day]
    ensures forall d :: d in Selected(runs, since, until) <==> exists k :: 0 <= k < |chosen| && chosen[k].day == d
    ensures forall k :: 0 <= k < |chosen| ==> chosen[k] in runs && Eligible(chosen[k], since, until)
    ensures forall k, j :: 0 <= k < |chosen| && 0 <= j < |runs| && Eligible(runs[j], since, until) && runs[j].day == chosen[k].day ==>
      !Less(chosen[k].startedAt, runs[j].startedAt)
    ensures forall j :: 0 <= j < |runs| && Eligible(runs[j], since, until) ==>
      exists k :: 0 <= k < |chosen| && chosen[k].day == runs[j].day
  {
    // The dictionary `selected`: its entries, and its keys in insertion order.
    var selected: map<int, Run> := map[];
    var order: seq<int> := [];
    var i := 0;
    while i < |runs|
      invariant 0 <= i <= |runs|
      invariant selected == Selected(runs[..i], since, until)
      invariant Distinct(order) && forall d :: d in order <==> d in selected
    {
      var run := runs[i];
      if run.startedAt != [] && since <= run.day <= until {
        var key := run.day;
        if key !in selected || Less(selected[key].startedAt, run.startedAt) {
          if key !in selected {
            order := order + [key];
          }
          selected := selected[key := run];
        }
      }
      assert runs[..i + 1][..i] == runs[..i];
      i := i + 1;
    }
    assert runs[..i] == runs;
    var days := SortedKeys(order);
    assert forall m :: 0 <= m < |days| ==> days[m] in days;
    chosen := Emit(selected, days);
    forall m | 0 <= m < |chosen|
      ensures chosen[m].day == days[m]
    {
      UnstartedNeverChosen(runs, since, until, days[m]);
    }
    forall d
      ensures d in Selected(runs, since, until) ==>
        && Eligible(Selected(runs, since, until)[d], since, until)
        && Selected(runs, since, until)[d] in runs
        && (forall j :: 0 <= j < |runs| && Eligible(runs[j], since, until) && runs[j].day == d ==>
              !Less(Selected(runs, since, until)[d].startedAt, runs[j].startedAt))
      ensures HasEligible(runs, since, until, d) ==> d in Selected(runs, since, until)
    {
      LatestRunPerDaySpec(runs, since, until, d);
    }
    forall j | 0 <= j < |runs| && Eligible(runs[j], since, until)
      ensures exists k :: 0 <= k < |chosen| && chosen[k].day == runs[j].day
    {
      assert HasEligible(runs, since, until, runs[j].day);
      assert runs[j].day in days;
    }
  }

  /** What the selection promises, stated on the per-day choice the method returns. */
  lemma LatestRunPerDaySpec(runs: seq<Run>, since: int, until: int, d: int)
    ensures d in Selected(runs, since, until) ==>
      && Eligible(Selected(runs, since, until)[d], since, until)
      && Selected(runs, since, until)[d] in runs
      && (forall j :: 0 <= j < |runs| && Eligible(runs[j], since, until) && runs[j].day == d ==>
            !Less(Selected(runs, since, until)[d].startedAt, runs[j].startedAt))
    ensures (exists j :: 0 <= j < |runs| && Eligible(runs[j], since, until) && runs[j].day == d) ==>
      d in Selected(runs, since, until)
  {
    SelectedSpec(runs, since, until, d);
    if d in Selected(runs, since, until) {
      var i :| PickAt(runs, since, until, i) && runs[i] == Selected(runs, since, until)[d] && runs[i].day == d;
      forall j | 0 <= j < |runs| && Eligible(runs[j], since, until) && runs[j].day == d
        ensures !Less(Selected(runs, since, until)[d].startedAt, runs[j].startedAt)
      {
        ChosenIsLatest(runs, since, until, d, j);
      }
    }
  }

  /** On equal start times the run seen first is kept. */
  lemma FirstOfTiesKept(a: Run, b: Run, since: int, until: int)
    requires Eligible(a, since, until) && Eligible(b, since, until)
    requires a.day == b.day && a.startedAt == b.startedAt
    ensures Selected([a, b], since, until)[a.day] == a
  {
    assert [a, b][..1] == [a];
    assert [a][..0] == [];
    assert Selected([a], since, until) == map[a.day := a];
    LessIrreflexive(a.startedAt);
  }

}
