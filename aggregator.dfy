/** `process_results` as a whole (linter.py:37-69): group the findings, then
    for each group print its header and the lines of each of its findings, in
    order, until the end or until an uncaught `ValueError` ends the run. */
module Aggregator {
  import opened Options
  import opened JsonTree
  import opened Traversal
  import opened Output
  import opened Grouping
  import opened Labels
  import PyInt

  /** The lines printed for the findings of one group (linter.py:47-69). */
  function FindingsReport(root: Json, errors: seq<Finding>): Transcript {
    if errors == [] then Transcript([], None)
    else Then(FindingsReport(root, Front(errors)), Outcome(root, Last(errors).path))
  }

  /** The header of a group (linter.py:46) followed by its findings' lines. */
  function GroupReport(root: Json, g: Group): Transcript {
    Then(Transcript([Header(|g.errors|, g.message)], None), FindingsReport(root, g.errors))
  }

  /** The lines printed for a sequence of groups, in order (linter.py:45). */
  function GroupsReport(root: Json, gs: seq<Group>): Transcript {
    if gs == [] then Transcript([], None)
    else Then(GroupsReport(root, gs[..|gs| - 1]), GroupReport(root, gs[|gs| - 1]))
  }

  /** Everything `process_results(root, results)` prints. */
  function Report(root: Json, results: seq<Finding>): Transcript {
    GroupsReport(root, GroupByMessage(results))
  }

  /** linter.py:47-69: each finding's lines in turn, stopping at an uncaught
      `ValueError`. */
  method ReportFindings(root: Json, errors: seq<Finding>) returns (lines: seq<Line>, abort: Option<string>)
    ensures Transcript(lines, abort) == FindingsReport(root, errors)
  {
    lines, abort := [], None;
    for j := 0 to |errors|
      invariant Transcript(lines, None) == FindingsReport(root, errors[..j])
    {
      var out, raised := ResolveFinding(root, errors[j].path);
      FindingsStep(root, errors, j);
      lines := lines + out;
      if raised.Some? {
        abort := raised;
        FindingsAbortFinal(root, errors, j + 1);
        return;
      }
    }
    assert errors[..|errors|] == errors;
  }

  /** linter.py:46-69 for one group: its header, then its findings' lines. */
  method ReportGroup(root: Json, group: Group) returns (lines: seq<Line>, abort: Option<string>)
    ensures Transcript(lines, abort) == GroupReport(root, group)
  {
    var out, raised := ReportFindings(root, group.errors);
    lines, abort := [Header(|group.errors|, group.message)] + out, raised;
  }

  lemma FindingsStep(root: Json, es: seq<Finding>, j: nat)
    requires j < |es|
    ensures FindingsReport(root, es[..j + 1]) == Then(FindingsReport(root, es[..j]), Outcome(root, es[j].path))
  {
    assert Front(es[..j + 1]) == es[..j] && Last(es[..j + 1]) == es[j];
  }

  lemma GroupsStep(root: Json, gs: seq<Group>, i: nat)
    requires i < |gs|
    ensures GroupsReport(root, gs[..i + 1]) == Then(GroupsReport(root, gs[..i]), GroupReport(root, gs[i]))
  {
    assert gs[..i + 1][..i] == gs[..i];
  }

  /** linter.py:45-69: the printing loop over the groups, in order. */
  method ReportGroups(root: Json, groups: seq<Group>) returns (lines: seq<Line>, abort: Option<string>)
    ensures Transcript(lines, abort) == GroupsReport(root, groups)
  {
    lines, abort := [], None;
    for i := 0 to |groups|
      invariant Transcript(lines, None) == GroupsReport(root, groups[..i])
    {
      var out, raised := ReportGroup(root, groups[i]);
      GroupsStep(root, groups, i);
      lines := lines + out;
      if raised.Some? {
        abort := raised;
        GroupsAbortFinal(root, groups, i + 1);
        return;
      }
    }
    assert groups[..|groups|] == groups;
  }

  /** linter.py:37-69: group the findings, then print the groups. */
  method ProcessResults(root: Json, results: seq<Finding>) returns (lines: seq<Line>, abort: Option<string>)
    ensures Transcript(lines, abort) == Report(root, results)
  {
    var groups := GroupFindings(results);
    lines, abort := ReportGroups(root, groups);
  }

  // ---------------------------------------------------------------------------
  // An uncaught exception ends the run

  /** Once the findings printed so far have aborted, the rest print nothing. */
  lemma {:induction false} FindingsAbortFinal(root: Json, es: seq<Finding>, k: nat)
    requires k <= |es| && FindingsReport(root, es[..k]).abort.Some?
    ensures FindingsReport(root, es) == FindingsReport(root, es[..k])
    decreases |es|
  {
    if k < |es| {
      assert Front(es)[..k] == es[..k];
      FindingsAbortFinal(root, Front(es), k);
    } else {
      assert es[..k] == es;
    }
  }

  /** Once the groups printed so far have aborted, the rest print nothing. */
  lemma {:induction false} GroupsAbortFinal(root: Json, gs: seq<Group>, k: nat)
    requires k <= |gs| && GroupsReport(root, gs[..k]).abort.Some?
    ensures GroupsReport(root, gs) == GroupsReport(root, gs[..k])
    decreases |gs|
  {
    if k < |gs| {
      assert gs[..|gs| - 1][..k] == gs[..k];
      GroupsAbortFinal(root, gs[..|gs| - 1], k);
    } else {
      assert gs[..k] == gs;
    }
  }

  /** The findings of a group abort the run exactly when one of them does,
      and then with that finding's segment. */
  lemma {:induction false} FindingsAbortIff(root: Json, es: seq<Finding>)
    ensures FindingsReport(root, es).abort.Some? <==>
            exists e :: e in es && Outcome(root, e.path).abort.Some?
    ensures FindingsReport(root, es).abort.Some? ==>
            exists e :: e in es && Outcome(root, e.path).abort == FindingsReport(root, es).abort
  {
    if es != [] {
      FindingsAbortIff(root, Front(es));
      assert es == Front(es) + [Last(es)];
    }
  }

  /** The groups abort the run exactly when a finding in one of them does, and
      then with that finding's segment. */
  lemma {:induction false} GroupsAbortIff(root: Json, gs: seq<Group>)
    ensures GroupsReport(root, gs).abort.Some? <==>
            exists g, e :: g in gs && e in g.errors && Outcome(root, e.path).abort.Some?
    ensures GroupsReport(root, gs).abort.Some? ==>
            exists g, e :: g in gs && e in g.errors && Outcome(root, e.path).abort == GroupsReport(root, gs).abort
  {
    if gs != [] {
      var front, last := gs[..|gs| - 1], gs[|gs| - 1];
      assert gs == front + [last];
      var t, u := GroupsReport(root, front), GroupReport(root, last);
      assert GroupsReport(root, gs) == Then(t, u);
      assert u.abort == FindingsReport(root, last.errors).abort;
      GroupsAbortIff(root, front);
      FindingsAbortIff(root, last.errors);
      if t.abort.Some? {
        var g, e :| g in front && e in g.errors && Outcome(root, e.path).abort == t.abort;
        assert g in gs;
      } else if u.abort.Some? {
        var e :| e in last.errors && Outcome(root, e.path).abort == u.abort;
        assert last in gs;
      } else {
        forall g, e | g in gs && e in g.errors
          ensures Outcome(root, e.path).abort == None
        {
          assert g in front || g == last;
        }
      }
    }
  }

  /** A finding of severity at least 0 whose walk meets a list with a segment
      `int()` rejects cuts the run short. */
  lemma RaisingFindingAborts(root: Json, results: seq<Finding>, f: Finding)
    requires f in results && Kept(f) && Walk(root, Init(f.path)).Raised?
    ensures Report(root, results).abort.Some?
  {
    var gs := GroupByMessage(results);
    GroupMembership(results, f);
    var g :| g in gs && g.message == f.message && f in g.errors;
    AbortIffRaised(root, f.path);
    GroupsAbortIff(root, gs);
  }

  /** The run is cut short only by such a finding. */
  lemma AbortComesFromRaisingFinding(root: Json, results: seq<Finding>)
    requires Report(root, results).abort.Some?
    ensures exists f :: f in results && Kept(f) && Walk(root, Init(f.path)).Raised?
  {
    var gs := GroupByMessage(results);
    GroupsAbortIff(root, gs);
    var g, e :| g in gs && e in g.errors && Outcome(root, e.path).abort.Some?;
    GroupedFindingIsKept(results, g, e);
    AbortIffRaised(root, e.path);
  }

  /** The run is cut short exactly when some finding of severity at least 0 has
      a path whose walk meets a list with a segment `int()` rejects: every other
      path problem is caught and the run goes on. */
  lemma ReportAbortsIff(root: Json, results: seq<Finding>)
    ensures Report(root, results).abort.Some? <==>
            exists f :: f in results && Kept(f) && Walk(root, Init(f.path)).Raised?
  {
    if Report(root, results).abort.Some? {
      AbortComesFromRaisingFinding(root, results);
    }
    if f :| f in results && Kept(f) && Walk(root, Init(f.path)).Raised? {
      RaisingFindingAborts(root, results, f);
    }
  }

  /** The segment an aborted run reports is one `int()` rejects, taken from
      the walked part of a finding of severity at least 0. */
  lemma ReportAbortSegment(root: Json, results: seq<Finding>, s: string)
    requires Report(root, results).abort == Some(s)
    ensures PyInt.ParseInt(s) == None
    ensures exists f :: f in results && Kept(f) && s in Init(f.path)
  {
    var gs := GroupByMessage(results);
    GroupsAbortIff(root, gs);
    var g, e :| g in gs && e in g.errors && Outcome(root, e.path).abort == Some(s);
    GroupedFindingIsKept(results, g, e);
    AbortCause(root, e.path, s);
  }

  // ---------------------------------------------------------------------------
  // Headers and line counts

  /** The first line a group prints is its header, whose count is the group's
      size; when the run is not cut short, each finding adds one or two lines. */
  lemma {:induction false} GroupReportShape(root: Json, g: Group)
    ensures |GroupReport(root, g).lines| >= 1
    ensures GroupReport(root, g).lines[0] == Header(|g.errors|, g.message)
    ensures Text(GroupReport(root, g).lines[0]) ==
            "\n" + PyInt.NatToString(|g.errors|) + " occurrences of: " + g.message
    ensures GroupReport(root, g).abort == None ==>
              1 + |g.errors| <= |GroupReport(root, g).lines| <= 1 + 2 * |g.errors|
  {
    FindingsLineCount(root, g.errors);
  }

  lemma {:induction false} FindingsLineCount(root: Json, es: seq<Finding>)
    ensures FindingsReport(root, es).abort == None ==>
              |es| <= |FindingsReport(root, es).lines| <= 2 * |es|
  {
    if es != [] {
      FindingsLineCount(root, Front(es));
    }
  }

  lemma {:induction false} TotalSizeSnoc(gs: seq<Group>, g: Group)
    ensures TotalSize(gs + [g]) == TotalSize(gs) + |g.errors|
  {
    if gs != [] {
      assert (gs + [g])[1..] == gs[1..] + [g];
      TotalSizeSnoc(gs[1..], g);
    }
  }

  lemma {:induction false} GroupsLineCount(root: Json, gs: seq<Group>)
    ensures GroupsReport(root, gs).abort == None ==>
              |gs| + TotalSize(gs) <= |GroupsReport(root, gs).lines| <= |gs| + 2 * TotalSize(gs)
  {
    if gs != [] {
      var front, last := gs[..|gs| - 1], gs[|gs| - 1];
      assert gs == front + [last];
      var t, u := GroupsReport(root, front), GroupReport(root, last);
      assert GroupsReport(root, gs) == Then(t, u);
      if t.abort == None && u.abort == None {
        GroupsLineCount(root, front);
        GroupReportShape(root, last);
        TotalSizeSnoc(front, last);
        assert |GroupsReport(root, gs).lines| == |t.lines| + |u.lines|;
      }
    }
  }

  /** A run that is not cut short prints one header per distinct message and
      at least one, at most two, lines for every finding of severity at least
      0: no finding is skipped. */
  lemma ReportLineCount(root: Json, results: seq<Finding>)
    ensures Report(root, results).abort == None ==>
              var n, k := |GroupByMessage(results)|, |KeptOnly(results)|;
              n + k <= |Report(root, results).lines| <= n + 2 * k
  {
    GroupsLineCount(root, GroupByMessage(results));
    GroupSizesSum(results);
  }
}
