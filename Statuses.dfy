/**
 * The fixed table from execution-status names to the integer codes Zapi
 * expects in a status update (`STATUSES`, identical in every draft).
 */
module Statuses {

  import opened Wrappers

  const Table: map<string, int> :=
    map["PASS" := 1, "FAIL" := 2, "WIP" := 3, "BLOCKED" := 4, "UNEXECUTED" := -1]

  /** `STATUSES[name]`; None stands for the KeyError of an unknown name. */
  function Code(name: string): (r: Option<int>)
    ensures r.Some? <==> name in {"PASS", "FAIL", "WIP", "BLOCKED", "UNEXECUTED"}
    ensures r.Some? ==> r.value in {1, 2, 3, 4, -1}
  {
    if name in Table then Some(Table[name]) else None
  }

  /** The reverse reading of the table, written out independently of it. */
  function NameOf(code: int): (r: Option<string>)
  {
    if code == 1 then Some("PASS")
    else if code == 2 then Some("FAIL")
    else if code == 3 then Some("WIP")
    else if code == 4 then Some("BLOCKED")
    else if code == -1 then Some("UNEXECUTED")
    else None
  }

  /** The table is injective: each code names exactly one status, both ways. */
  lemma CodeNameOf(name: string, code: int)
    ensures Code(name) == Some(code) <==> NameOf(code) == Some(name)
  {
    if Code(name).Some? {
      assert name == "PASS" || name == "FAIL" || name == "WIP" || name == "BLOCKED" || name == "UNEXECUTED";
    }
  }

  /** Distinct names map to distinct codes. */
  lemma CodesDistinct(a: string, b: string)
    requires Code(a).Some? && Code(b).Some? && a != b
    ensures Code(a) != Code(b)
  {
    CodeNameOf(a, Code(a).value);
    CodeNameOf(b, Code(b).value);
  }
}
