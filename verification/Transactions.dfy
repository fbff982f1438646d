/** The closure of a multi-table transaction: read and check one table after the other. */
module Transactions {
  import opened Options
  import opened Commits
  import opened Protocol

  /** The table exists and its requirements hold. */
  predicate Passes(committed: map<Table, Row>, change: Change) {
    change.table in committed && RequirementsHold(Load(committed[change.table]), change.requirements)
  }

  /** `commitTableInTx`, on the rows as they are while their locks are held. */
  method CheckTable(committed: map<Table, Row>, change: Change) returns (row: Option<Row>, refusal: Option<Reply>)
    ensures Passes(committed, change) ==> refusal == None && row == Some(committed[change.table])
    ensures !Passes(committed, change) ==>
              row == None && refusal == Some(if change.table in committed then Conflict else NotFound)
  {
    if change.table !in committed {
      return None, Some(NotFound);
    }
    var metadata := Load(committed[change.table]);
    for i := 0 to |change.requirements|
      invariant forall j :: 0 <= j < i ==> Holds(metadata, change.requirements[j])
    {
      if !Holds(metadata, change.requirements[i]) {
        return None, Some(Conflict);
      }
    }
    return Some(committed[change.table]), None;
  }

  /** All rows are reported when every table passes; otherwise the first that does not decides. */
  method CheckAll(committed: map<Table, Row>, changes: seq<Change>) returns (results: seq<Row>, refusal: Option<Reply>)
    ensures refusal == None <==> forall i :: 0 <= i < |changes| ==> Passes(committed, changes[i])
    ensures refusal == None ==>
              |results| == |changes| && forall i :: 0 <= i < |changes| ==> results[i] == committed[changes[i].table]
    ensures refusal.Some? ==>
              exists i :: 0 <= i < |changes| && !Passes(committed, changes[i])
                          && (forall j :: 0 <= j < i ==> Passes(committed, changes[j]))
                          && refusal.value == (if changes[i].table in committed then Conflict else NotFound)
  {
    hide RequirementsHold;
    results := [];
    for i := 0 to |changes|
      invariant |results| == i
      invariant forall j :: 0 <= j < i ==> Passes(committed, changes[j]) && results[j] == committed[changes[j].table]
    {
      var row: Option<Row>;
      row, refusal := CheckTable(committed, changes[i]);
      if refusal.Some? {
        return;
      }
      results := results + [row.value];
    }
    refusal := None;
  }
}
