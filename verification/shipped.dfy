/**
 The planner's guarantees instantiated with the catalog the component ships,
 `DATA`: it always renders, its required courses make up the plan's required
 credits, and no sequence of clicks without an import exceeds the elective cap.
 */
module Shipped {
  import opened Catalog
  import opened Credits
  import opened CatalogFacts
  import opened Planner
  import opened View

  /** `creditosObligatorios` shows `TOTAL_OBLIGATORIOS_PLAN`. */
  lemma DataRequiredTotal()
    ensures RequiredCredits(Data) == TotalRequiredCredits
  {
    DataRequiredCredits();
  }

  /** With `DATA`, `porSemestre` never throws, whatever the map and the query. */
  lemma DataRenders(asg: Assignments, query: string, before: (string, string) -> bool)
    ensures SemesterView(Data, asg, query, before).Some?
  {
    DataWellFormed();
    WellFormedRenders(Data, asg, query, before);
  }

  /** With `DATA`, clicks other than import keep the assigned elective credits within 27. */
  lemma DataRunKeepsCap(p: Plan, actions: seq<Action>)
    requires CapOk(Data, p.assignments)
    requires forall i :: 0 <= i < |actions| ==> !actions[i].Import?
    ensures CapOk(Data, Run(Data, p, actions).assignments)
  {
    DataWellFormed();
    RunKeepsCap(Data, p, actions);
  }
}
