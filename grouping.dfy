/** The grouping half of `process_results` (linter.py:39-45): findings whose
    severity is at least 0 are appended, in input order, to a `defaultdict(list)`
    keyed by their message, and the groups are read back in the order their
    messages were first inserted. */
module Grouping {
  import opened Options

  /** One result from the linter: where, what, and how severe. */
  datatype Finding = Finding(path: seq<string>, message: string, severity: Option<int>)

  /** One entry of `grouped_errors.items()`. */
  datatype Group = Group(message: string, errors: seq<Finding>)

  /** `error.get("severity", 0)`. */
  function Severity(f: Finding): int {
    match f.severity
    case None => 0
    case Some(s) => s
  }

  /** The filter of linter.py:41. */
  predicate Kept(f: Finding) {
    Severity(f) >= 0
  }

  /** A finding that lands in the group of message `m`. */
  predicate Hit(f: Finding, m: string) {
    Kept(f) && f.message == m
  }

  function Last(xs: seq<Finding>): Finding
    requires xs != []
  {
    xs[|xs| - 1]
  }

  function Front(xs: seq<Finding>): seq<Finding>
    requires xs != []
  {
    xs[..|xs| - 1]
  }

  /** The findings the filter lets through, in input order. */
  function KeptOnly(xs: seq<Finding>): seq<Finding> {
    if xs == [] then []
    else KeptOnly(Front(xs)) + (if Kept(Last(xs)) then [Last(xs)] else [])
  }

  /** The list `grouped_errors[m]` ends up holding. */
  function Members(xs: seq<Finding>, m: string): seq<Finding> {
    if xs == [] then []
    else Members(Front(xs), m) + (if Hit(Last(xs), m) then [Last(xs)] else [])
  }

  /** The keys of `grouped_errors`, in insertion order. */
  function Messages(xs: seq<Finding>): seq<string> {
    if xs == [] then []
    else
      var ms := Messages(Front(xs));
      if Kept(Last(xs)) && Last(xs).message !in ms then ms + [Last(xs).message] else ms
  }

  function GroupsOf(xs: seq<Finding>, ms: seq<string>): seq<Group> {
    seq(|ms|, i requires 0 <= i < |ms| => Group(ms[i], Members(xs, ms[i])))
  }

  /** `grouped_errors.items()` after the loop of linter.py:40-42. */
  function GroupByMessage(xs: seq<Finding>): seq<Group> {
    GroupsOf(xs, Messages(xs))
  }

  /** Everything the groups hold, counted with multiplicity. */
  function AllOf(gs: seq<Group>): multiset<Finding> {
    if gs == [] then multiset{} else multiset(gs[0].errors) + AllOf(gs[1..])
  }

  /** The sum of the group sizes. */
  function TotalSize(gs: seq<Group>): nat {
    if gs == [] then 0 else |gs[0].errors| + TotalSize(gs[1..])
  }

  /** The position of the first finding that lands in group `m`, or `|xs|` if none does. */
  function FirstIndex(xs: seq<Finding>, m: string): (r: nat)
    ensures r <= |xs|
    ensures r < |xs| ==> Hit(xs[r], m)
    ensures forall p :: 0 <= p < r ==> !Hit(xs[p], m)
  {
    if xs == [] then 0 else if Hit(xs[0], m) then 0 else 1 + FirstIndex(xs[1..], m)
  }

  /** The positions in `xs` of the findings that land in group `m`, ascending. */
  ghost function Positions(xs: seq<Finding>, m: string): seq<nat> {
    if xs == [] then []
    else Positions(Front(xs), m) + (if Hit(Last(xs), m) then [|xs| - 1] else [])
  }

  // ---------------------------------------------------------------------------
  // The loop of linter.py:39-45

  /** Builds `grouped_errors` one finding at a time, as linter.py:39-42 does,
      and returns its items in insertion order (linter.py:45). */
  method GroupFindings(results: seq<Finding>) returns (groups: seq<Group>)
    ensures groups == GroupByMessage(results)
  {
    var order: seq<string> := [];
    var grouped: map<string, seq<Finding>> := map[];
    for i := 0 to |results|
      invariant order == Messages(results[..i])
      invariant forall m :: m in grouped <==> m in order
      invariant forall m :: m in grouped ==> grouped[m] == Members(results[..i], m)
    {
      var error := results[i];
      assert Front(results[..i + 1]) == results[..i];
      assert Last(results[..i + 1]) == error;
      if Severity(error) >= 0 {
        if error.message !in grouped {
          MembersOfUnlisted(results[..i], error.message);
          order := order + [error.message];
          grouped := grouped[error.message := []];
        }
        grouped := grouped[error.message := grouped[error.message] + [error]];
      }
    }
    assert results[..|results|] == results;
    groups := seq(|order|, k requires 0 <= k < |order| => Group(order[k], grouped[order[k]]));
  }

  // ---------------------------------------------------------------------------
  // What the groups hold

  /** A message that was never inserted has an empty list. */
  lemma {:induction false} MembersOfUnlisted(xs: seq<Finding>, m: string)
    requires m !in Messages(xs)
    ensures Members(xs, m) == []
  {
    if xs != [] {
      MembersOfUnlisted(Front(xs), m);
    }
  }

  /** Every finding in a group passed the severity filter and carries the group's message. */
  lemma {:induction false} MembersAreHits(xs: seq<Finding>, m: string)
    ensures forall f :: f in Members(xs, m) ==> f in xs && Hit(f, m)
  {
    if xs != [] {
      MembersAreHits(Front(xs), m);
      assert xs == Front(xs) + [Last(xs)];
    }
  }

  /** Each group holds only findings of `xs` that passed the filter and carry
      the group's message. */
  lemma GroupedFindingIsKept(xs: seq<Finding>, g: Group, f: Finding)
    requires g in GroupByMessage(xs) && f in g.errors
    ensures f in xs && Kept(f) && f.message == g.message
  {
    var i :| 0 <= i < |GroupByMessage(xs)| && GroupByMessage(xs)[i] == g;
    assert g.errors == Members(xs, g.message);
    MembersAreHits(xs, g.message);
  }

  /** A message is a key exactly when some finding that passed the filter carries it. */
  lemma {:induction false} MessagesAreKeptMessages(xs: seq<Finding>, m: string)
    ensures m in Messages(xs) <==> FirstIndex(xs, m) < |xs|
  {
    if xs != [] {
      MessagesAreKeptMessages(Front(xs), m);
      FirstIndexSnoc(Front(xs), Last(xs), m);
      assert Front(xs) + [Last(xs)] == xs;
    }
  }

  lemma {:induction false} FirstIndexSnoc(xs: seq<Finding>, f: Finding, m: string)
    ensures FirstIndex(xs + [f], m) ==
            if FirstIndex(xs, m) < |xs| then FirstIndex(xs, m)
            else if Hit(f, m) then |xs| else |xs| + 1
  {
    if xs != [] {
      assert (xs + [f])[0] == xs[0];
      assert (xs + [f])[1..] == xs[1..] + [f];
      FirstIndexSnoc(xs[1..], f, m);
    }
  }

  /** The keys of `grouped_errors` are pairwise distinct. */
  lemma {:induction false} MessagesDistinct(xs: seq<Finding>)
    ensures forall i, j :: 0 <= i < j < |Messages(xs)| ==> Messages(xs)[i] != Messages(xs)[j]
  {
    if xs != [] {
      MessagesDistinct(Front(xs));
    }
  }

  /** Groups come out in the order in which their messages first appear among
      the findings that passed the filter. */
  lemma {:induction false} MessagesInFirstSeenOrder(xs: seq<Finding>)
    ensures forall i, j :: 0 <= i < j < |Messages(xs)| ==>
              FirstIndex(xs, Messages(xs)[i]) < FirstIndex(xs, Messages(xs)[j]) < |xs|
  {
    if xs != [] {
      var front, f := Front(xs), Last(xs);
      assert front + [f] == xs;
      var ms0, ms := Messages(front), Messages(xs);
      MessagesInFirstSeenOrder(front);
      forall i, j | 0 <= i < j < |ms|
        ensures FirstIndex(xs, ms[i]) < FirstIndex(xs, ms[j]) < |xs|
      {
        FirstIndexSnoc(front, f, ms[i]);
        FirstIndexSnoc(front, f, ms[j]);
        MessagesAreKeptMessages(front, ms[i]);
        MessagesAreKeptMessages(front, ms[j]);
        if j == |ms0| {
          assert ms[j] == f.message && f.message !in ms0;
        }
      }
    }
  }

  /** Within a group the findings are exactly those of `xs` that land in it,
      in their input order: the group is `xs` read at `Positions(xs, m)`, an
      ascending list of every position whose finding lands in group `m`. */
  lemma {:induction false} MembersInInputOrder(xs: seq<Finding>, m: string)
    ensures |Positions(xs, m)| == |Members(xs, m)|
    ensures forall k :: 0 <= k < |Positions(xs, m)| ==>
              Positions(xs, m)[k] < |xs| && Members(xs, m)[k] == xs[Positions(xs, m)[k]]
    ensures forall a, b :: 0 <= a < b < |Positions(xs, m)| ==> Positions(xs, m)[a] < Positions(xs, m)[b]
    ensures forall p :: 0 <= p < |xs| && Hit(xs[p], m) ==> p in Positions(xs, m)
  {
    if xs != [] {
      var front := Front(xs);
      MembersInInputOrder(front, m);
      assert forall p :: 0 <= p < |front| ==> xs[p] == front[p];
    }
  }

  // ---------------------------------------------------------------------------
  // Nothing lost, nothing duplicated

  /** The filter keeps every copy of a finding of severity at least 0 (a
      missing severity counting as 0) and no copy of any other. */
  lemma {:induction false} KeptOnlyCounts(xs: seq<Finding>, f: Finding)
    ensures multiset(KeptOnly(xs))[f] == if Kept(f) then multiset(xs)[f] else 0
  {
    if xs != [] {
      KeptOnlyCounts(Front(xs), f);
      assert xs == Front(xs) + [Last(xs)];
    }
  }

  lemma {:induction false} MembersCounts(xs: seq<Finding>, m: string, f: Finding)
    ensures multiset(Members(xs, m))[f] == if f.message == m then multiset(KeptOnly(xs))[f] else 0
  {
    if xs != [] {
      MembersCounts(Front(xs), m, f);
    }
  }

  lemma {:induction false} GroupsOfCounts(xs: seq<Finding>, ms: seq<string>, f: Finding)
    requires forall i, j :: 0 <= i < j < |ms| ==> ms[i] != ms[j]
    ensures AllOf(GroupsOf(xs, ms))[f] == if f.message in ms then multiset(KeptOnly(xs))[f] else 0
  {
    if ms != [] {
      assert GroupsOf(xs, ms)[1..] == GroupsOf(xs, ms[1..]);
      GroupsOfCounts(xs, ms[1..], f);
      MembersCounts(xs, ms[0], f);
      assert f.message in ms <==> f.message == ms[0] || f.message in ms[1..];
    }
  }

  /** A finding that passed the filter has its message among the keys. */
  lemma {:induction false} KeptMessageListed(xs: seq<Finding>, f: Finding)
    requires f in KeptOnly(xs)
    ensures f.message in Messages(xs)
  {
    var front := Front(xs);
    if f in KeptOnly(front) {
      KeptMessageListed(front, f);
    }
  }

  /** Grouping loses and duplicates nothing: the groups together hold exactly
      the findings of severity at least 0, each as often as it occurs. */
  lemma GroupingIsPermutationOfKept(xs: seq<Finding>)
    ensures AllOf(GroupByMessage(xs)) == multiset(KeptOnly(xs))
  {
    MessagesDistinct(xs);
    forall f
      ensures AllOf(GroupByMessage(xs))[f] == multiset(KeptOnly(xs))[f]
    {
      GroupsOfCounts(xs, Messages(xs), f);
      if f.message !in Messages(xs) && f in KeptOnly(xs) {
        KeptMessageListed(xs, f);
      }
    }
  }

  lemma {:induction false} AllOfSize(gs: seq<Group>)
    ensures |AllOf(gs)| == TotalSize(gs)
  {
    if gs != [] {
      AllOfSize(gs[1..]);
    }
  }

  /** The group sizes add up to the number of findings of severity at least 0. */
  lemma GroupSizesSum(xs: seq<Finding>)
    ensures TotalSize(GroupByMessage(xs)) == |KeptOnly(xs)|
  {
    GroupingIsPermutationOfKept(xs);
    AllOfSize(GroupByMessage(xs));
  }

  /** A finding of negative severity is in no group; any other finding is in
      the group of its message. */
  lemma GroupMembership(xs: seq<Finding>, f: Finding)
    ensures Severity(f) < 0 ==> forall g :: g in GroupByMessage(xs) ==> f !in g.errors
    ensures Kept(f) && f in xs ==>
              exists g :: g in GroupByMessage(xs) && g.message == f.message && f in g.errors
  {
    var gs := GroupByMessage(xs);
    forall g | g in gs && f in g.errors
      ensures Kept(f)
    {
      GroupedFindingIsKept(xs, g, f);
    }
    if Kept(f) && f in xs {
      KeptOnlyCounts(xs, f);
      KeptMessageListed(xs, f);
      MembersCounts(xs, f.message, f);
      var i :| 0 <= i < |Messages(xs)| && Messages(xs)[i] == f.message;
      assert gs[i].errors == Members(xs, f.message);
      assert f in gs[i].errors;
    }
  }
}
