/**
 * Execution records and the status-and-labels match rule: the status name
 * must be equal, and the required labels must form a STRICT subset of the
 * labels parsed from the comma-joined `issueLabel` string.
 */
module Executions {

  import opened Wrappers
  import Text
  import Search

  /** The nested `execution` object of a search result. */
  datatype ExecutionRecord = ExecutionRecord(
    id: string,
    issueId: string,
    projectId: string,
    cycleId: string,
    versionId: string,
    statusName: string)

  /** One element of `searchObjectList`. */
  datatype Execution = Execution(execution: ExecutionRecord, issueKey: string, issueLabel: string)

  /** `set(execution["issueLabel"].split(","))` */
  function LabelSet(e: Execution): (labels: set<string>)
    ensures labels != {}
  {
    var parts := Text.Split(e.issueLabel, ',');
    var labels := set l | l in parts;
    assert parts[0] in labels;
    labels
  }

  /** `set(labels)` */
  function Required(labels: seq<string>): set<string>
  {
    set l | l in labels
  }

  /** `status.name == status and set(labels) < set(issueLabel.split(","))` */
  predicate Matches(e: Execution, status: string, labels: seq<string>)
    ensures Matches(e, status, labels) <==>
      var parts := Text.Split(e.issueLabel, ',');
      && e.execution.statusName == status
      && (forall l :: l in labels ==> l in parts)
      && (exists p :: p in parts && p !in labels)
  {
    StrictSubsetOfParts(labels, Text.Split(e.issueLabel, ','));
    e.execution.statusName == status && Required(labels) < LabelSet(e)
  }

  /** A strict subset of the labels, read element by element on the two lists. */
  lemma StrictSubsetOfParts(labels: seq<string>, parts: seq<string>)
    ensures Required(labels) < (set l | l in parts) <==>
      (forall l :: l in labels ==> l in parts) && (exists p :: p in parts && p !in labels)
  {
    var a, b := Required(labels), set l | l in parts;
    if a < b {
      var p :| p in b && p !in a;
      assert p in parts && p !in labels;
      forall l | l in labels
        ensures l in parts
      {
        assert l in a;
      }
    }
    if (forall l :: l in labels ==> l in parts) && (exists p :: p in parts && p !in labels) {
      var p :| p in parts && p !in labels;
      forall x | x in a
        ensures x in b
      {
        assert x in labels;
      }
      assert p in b && p !in a;
      assert a < b;
    }
  }

  /** The match rule as a predicate value, one term per query. */
  function MatchRule(status: string, labels: seq<string>): Execution -> bool
  {
    e => Matches(e, status, labels)
  }

  /** The executions matching `(status, labels)`, in cache order. */
  function Select(cache: seq<Execution>, status: string, labels: seq<string>): (r: seq<Execution>)
    ensures |r| <= |cache|
    ensures forall k :: 0 <= k < |r| ==> r[k] in cache && Matches(r[k], status, labels)
    ensures forall i :: 0 <= i < |cache| && Matches(cache[i], status, labels) ==> cache[i] in r
  {
    Search.Where(cache, MatchRule(status, labels))
  }

  /** Selection commutes with concatenation, so pages may be filtered one at a time. */
  lemma SelectConcat(a: seq<Execution>, b: seq<Execution>, status: string, labels: seq<string>)
    ensures Select(a + b, status, labels) == Select(a, status, labels) + Select(b, status, labels)
  {
    Search.WhereConcat(a, b, MatchRule(status, labels));
  }

  /** An execution whose labels are exactly the required ones is never selected. */
  lemma EqualLabelsNotSelected(cache: seq<Execution>, e: Execution, status: string, labels: seq<string>)
    requires Required(labels) == LabelSet(e)
    ensures e !in Select(cache, status, labels)
  {
  }

  /** An execution with at least one label beyond the required ones and the right status is selected. */
  lemma ExtraLabelSelected(cache: seq<Execution>, e: Execution, status: string, labels: seq<string>, extra: string)
    requires e in cache && e.execution.statusName == status
    requires Required(labels) <= LabelSet(e) && extra in LabelSet(e) && extra !in labels
    ensures e in Select(cache, status, labels)
  {
    assert extra !in Required(labels);
    var i :| 0 <= i < |cache| && cache[i] == e;
  }

  /** An execution whose `issueLabel` is empty still has the one label "". */
  lemma EmptyLabelString(e: Execution)
    requires e.issueLabel == ""
    ensures LabelSet(e) == {""}
  {
  }

  function HasStatus(status: string): Execution -> bool
  {
    (e: Execution) => e.execution.statusName == status
  }

  /**
   * With no required labels every execution with the requested status is
   * selected, because a split label string is never empty.
   */
  lemma NoLabelsSelectsByStatus(cache: seq<Execution>, status: string)
    ensures Select(cache, status, []) == Search.Where(cache, HasStatus(status))
  {
    forall i | 0 <= i < |cache|
      ensures MatchRule(status, [])(cache[i]) == HasStatus(status)(cache[i])
    {
      assert Required([]) == {};
      var _ := LabelSet(cache[i]);
    }
    Search.WhereAgree(cache, MatchRule(status, []), HasStatus(status));
  }

  /**
   * The filter loop: appends the executions of `items` that match to `acc`,
   * one at a time, in order.
   */
  method AppendMatches(acc: seq<Execution>, items: seq<Execution>, status: string, labels: seq<string>)
    returns (r: seq<Execution>)
    ensures r == acc + Select(items, status, labels)
  {
    r := acc;
    for i := 0 to |items|
      invariant r == acc + Select(items[..i], status, labels)
    {
      assert items[..i + 1] == items[..i] + [items[i]];
      SelectConcat(items[..i], [items[i]], status, labels);
      if Matches(items[i], status, labels) {
        r := r + [items[i]];
      }
    }
    assert items[..|items|] == items;
  }

  function HasIssueKey(key: string): Execution -> bool
  {
    (e: Execution) => e.issueKey == key
  }
}
