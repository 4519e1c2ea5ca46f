/**
 The planner's state machine (src/CurriculumMap.tsx): the completion set
 changed by the Cursada checkbox and Reiniciar, the assignment map changed by
 the elective selector (`onAdd`), Quitar and the JSON import, and the options
 the selector offers. The React state setters become pure transitions from the
 old state to the new one.
 */
module Planner {
  import opened Options
  import opened Seqs
  import opened Strings
  import opened Catalog
  import opened Credits

  // ---------------- the completion set ----------------

  /** The Cursada checkbox: a copy of the set with `id` taken out if it was in, and put in otherwise. */
  function ToggleCompleted(done: set<string>, id: string): (r: set<string>)
    ensures id in r <==> id !in done
    ensures forall x :: x != id ==> (x in r <==> x in done)
  {
    if id in done then done - {id} else done + {id}
  }

  /** Reiniciar: `setCompleted(new Set())`. */
  function ResetCompleted(): (r: set<string>)
    ensures forall id :: id !in r
  {
    {}
  }

  /** Ticking the same box twice gives back the set it started from. */
  lemma ToggleTwice(done: set<string>, id: string)
    ensures ToggleCompleted(ToggleCompleted(done, id), id) == done
  {
  }

  /** Ticking a catalog course adds its credits to the completed total; unticking takes them away. */
  lemma ToggleCompletedCredits(cat: seq<Course>, done: set<string>, c: Course)
    requires WellFormed(cat) && c in cat
    ensures CompletedCredits(cat, ToggleCompleted(done, c.id))
            == CompletedCredits(cat, done) + (if c.id in done then -c.credits else c.credits)
  {
    CreditsOfMember(cat, c);
    SumIdChange(cat, done, ToggleCompleted(done, c.id), c.id);
  }

  /** After Reiniciar no credit is completed and the progress reads 0%. */
  lemma ResetClearsProgress(cat: seq<Course>)
    ensures CompletedCredits(cat, ResetCompleted()) == 0
    ensures ProgressPercent(CompletedCredits(cat, ResetCompleted())) == 0
  {
    FilterNone(cat, InIds(ResetCompleted()));
  }

  /** With a well-formed catalog the progress lies between 0% and 100%. */
  lemma ProgressBounds(cat: seq<Course>, done: set<string>)
    requires WellFormed(cat)
    ensures 0 <= ProgressPercent(CompletedCredits(cat, done)) <= 100
  {
    CompletedCreditsBounds(cat, done);
  }

  // ---------------- adding an elective ----------------

  /** The first elective of the base list whose id is `id`, if any. */
  function FindElective(cat: seq<Course>, id: string): (r: Option<Course>)
    ensures r.Some? ==> r.value in cat && IsElective(r.value) && r.value.id == id
    ensures r.None? <==> forall c :: c in cat && IsElective(c) ==> c.id != id
  {
    Find(ElectivesOf(cat), (c: Course) => c.id == id)
  }

  /** In a catalog with distinct ids, looking up an elective's id finds that elective. */
  lemma FindElectiveUnique(cat: seq<Course>, e: Course)
    requires WellFormed(cat) && e in cat && IsElective(e)
    ensures FindElective(cat, e.id) == Some(e)
  {
    var r := FindElective(cat, e.id);
    var i :| 0 <= i < |cat| && cat[i] == r.value;
    var j :| 0 <= j < |cat| && cat[j] == e;
  }

  /** The outcome of `onAdd`: the three early returns, or the assignment. */
  datatype AddVerdict = EmptyId | NotAnElective | OverCap(remaining: int) | Accepted

  /** The checks `onAdd` makes, in order, before touching the map. */
  function CheckAdd(cat: seq<Course>, asg: Assignments, id: string): (v: AddVerdict)
    ensures v == EmptyId <==> id == ""
    ensures v == NotAnElective <==> id != "" && forall c :: c in cat && IsElective(c) ==> c.id != id
    ensures v.OverCap? ==> v.remaining == Remaining(cat, asg)
    ensures v == Accepted ==> exists c :: c in cat && IsElective(c) && c.id == id && c.credits <= Remaining(cat, asg)
  {
    if id == "" then EmptyId
    else match FindElective(cat, id)
      case None => NotAnElective
      case Some(c) => if c.credits > Remaining(cat, asg) then OverCap(Remaining(cat, asg)) else Accepted
  }

  /**
   `onAdd(id)` in the selector of semester `s`: once the checks pass, a copy of
   the map with `id` set to the decimal text of `s`; otherwise no change.
   */
  function AddElective(cat: seq<Course>, asg: Assignments, s: nat, id: string): (r: Assignments)
    ensures CheckAdd(cat, asg, id) != Accepted ==> r == asg
    ensures CheckAdd(cat, asg, id) == Accepted ==>
              && r.Keys == asg.Keys + {id}
              && r[id] == NatToString(s)
              && ParseDecimal(r[id]) == Some(s)
              && forall k :: k in asg && k != id ==> r[k] == asg[k]
  {
    if CheckAdd(cat, asg, id) == Accepted then
      ParseNatToString(s);
      asg[id := NatToString(s)]
    else asg
  }

  /** In a well-formed catalog an elective is rejected as over the cap exactly when its credits exceed what remains. */
  lemma AddVerdictOfElective(cat: seq<Course>, asg: Assignments, e: Course)
    requires WellFormed(cat) && e in cat && IsElective(e)
    ensures CheckAdd(cat, asg, e.id) == (if e.credits > Remaining(cat, asg) then OverCap(Remaining(cat, asg)) else Accepted)
  {
    FindElectiveUnique(cat, e);
  }

  /** Once the cap is used up, no elective worth credits can be added. */
  lemma FullCapRejects(cat: seq<Course>, asg: Assignments, e: Course, s: nat)
    requires WellFormed(cat) && e in cat && IsElective(e) && e.credits > 0
    requires AssignedCredits(cat, asg) >= ElectiveCap
    ensures CheckAdd(cat, asg, e.id) == OverCap(0)
    ensures AddElective(cat, asg, s, e.id) == asg
  {
    AddVerdictOfElective(cat, asg, e);
  }

  /**
   At a full cap an assigned elective cannot be moved to another semester:
   `electivosRestantes` still counts its own credits, so `onAdd` rejects it.
   Quitar first and then adding it to the new semester succeeds.
   */
  lemma MoveAtFullCap(cat: seq<Course>, asg: Assignments, e: Course, s: nat)
    requires WellFormed(cat) && e in cat && IsElective(e) && e.credits > 0
    requires IsAssigned(asg, e.id) && AssignedCredits(cat, asg) == ElectiveCap
    ensures CheckAdd(cat, asg, e.id) == OverCap(0)
    ensures AddElective(cat, asg, s, e.id) == asg
    ensures CheckAdd(cat, RemoveElective(asg, e.id), e.id) == Accepted
    ensures AddElective(cat, RemoveElective(asg, e.id), s, e.id) == RemoveElective(asg, e.id)[e.id := NatToString(s)]
  {
    FullCapRejects(cat, asg, e, s);
    var freed := RemoveElective(asg, e.id);
    AssignedCreditsAfterDelete(cat, asg, e.id);
    assert AssignedCredits(cat, freed) == ElectiveCap - e.credits;
    assert Remaining(cat, freed) == e.credits;
    AddVerdictOfElective(cat, freed, e);
  }

  /** An accepted add of an unassigned elective adds exactly its credits. */
  lemma AddCountsCredits(cat: seq<Course>, asg: Assignments, s: nat, e: Course)
    requires WellFormed(cat) && e in cat && IsElective(e) && !IsAssigned(asg, e.id)
    requires CheckAdd(cat, asg, e.id) == Accepted
    ensures AssignedCredits(cat, AddElective(cat, asg, s, e.id)) == AssignedCredits(cat, asg) + e.credits
  {
    AssignedCreditsAfterSet(cat, asg, e, NatToString(s));
  }

  /** Moving an already assigned elective to another semester leaves the assigned credits as they were. */
  lemma ReAddKeepsCredits(cat: seq<Course>, asg: Assignments, s: nat, id: string)
    requires WellFormed(cat) && IsAssigned(asg, id)
    ensures AssignedCredits(cat, AddElective(cat, asg, s, id)) == AssignedCredits(cat, asg)
  {
    if CheckAdd(cat, asg, id) == Accepted {
      var e := FindElective(cat, id).value;
      AssignedCreditsAfterSet(cat, asg, e, NatToString(s));
    }
  }

  /** `onAdd` never takes the assigned credits past `TOTAL_ELECTIVOS_PLAN`. */
  lemma AddKeepsCap(cat: seq<Course>, asg: Assignments, s: nat, id: string)
    requires WellFormed(cat) && CapOk(cat, asg)
    ensures CapOk(cat, AddElective(cat, asg, s, id))
  {
    if CheckAdd(cat, asg, id) == Accepted {
      var e := FindElective(cat, id).value;
      AssignedCreditsAfterSet(cat, asg, e, NatToString(s));
    }
  }

  // ---------------- removing an elective ----------------

  /** Quitar: a copy of the map without the key `id`. */
  function RemoveElective(asg: Assignments, id: string): (r: Assignments)
    ensures id !in r
    ensures forall k :: k != id ==> (k in r <==> k in asg)
    ensures forall k :: k in r ==> r[k] == asg[k]
  {
    asg - {id}
  }

  /** Quitar of an id that is not in the map changes nothing. */
  lemma RemoveAbsent(asg: Assignments, id: string)
    requires id !in asg
    ensures RemoveElective(asg, id) == asg
  {
  }

  /** After Quitar the elective is offered again by `electivasDisponibles`. */
  lemma RemoveMakesAvailable(cat: seq<Course>, asg: Assignments, e: Course)
    requires e in cat && IsElective(e)
    ensures e in Available(cat, RemoveElective(asg, e.id))
    ensures e !in AssignedElectives(cat, RemoveElective(asg, e.id))
  {
  }

  /** Quitar never raises the assigned credits, so it keeps the cap. */
  lemma RemoveKeepsCap(cat: seq<Course>, asg: Assignments, id: string)
    requires WellFormed(cat) && CapOk(cat, asg)
    ensures CapOk(cat, RemoveElective(asg, id))
  {
    AssignedCreditsAfterDelete(cat, asg, id);
  }

  /** Adding an elective and then removing it leaves the map as removing alone would. */
  lemma AddThenRemove(cat: seq<Course>, asg: Assignments, s: nat, id: string)
    ensures RemoveElective(AddElective(cat, asg, s, id), id) == RemoveElective(asg, id)
  {
  }

  // ---------------- export and import ----------------

  /**
   A JSON object of string values as written in the file: its members in the
   order they appear, each a key and its value.
   */
  type JsonObject = seq<(string, string)>

  /** The document `exportJSON` writes: the catalog, and the assignment map as a JSON object. */
  datatype ExportDocument = ExportDocument(data: seq<Course>, assignments: JsonObject)

  /**
   What `importJSON` gets from the chosen file: nothing usable (no file, a read
   or parse error), or a parsed object whose `asignaciones` may be missing.
   */
  datatype ImportFile = Unusable | Parsed(assignments: Option<Assignments>)

  /** `o` lists every key of `m` exactly once, each with its value in `m`, and nothing else. */
  ghost predicate ListsExactly(o: JsonObject, m: Assignments) {
    && (forall i :: 0 <= i < |o| ==> o[i].0 in m && o[i].1 == m[o[i].0])
    && (forall k :: k in m ==> exists i :: 0 <= i < |o| && o[i].0 == k)
    && (forall i, j :: 0 <= i < j < |o| ==> o[i].0 != o[j].0)
  }

  /**
   `r` is what reading `o` gives: exactly the keys that occur in `o`, each with
   the value of its last occurrence.
   */
  ghost predicate LastMemberWins(o: JsonObject, r: Assignments) {
    && (forall k :: k in r <==> exists i :: 0 <= i < |o| && o[i].0 == k)
    && (forall i :: 0 <= i < |o| && (forall j :: i < j < |o| ==> o[j].0 != o[i].0) ==>
          o[i].0 in r && r[o[i].0] == o[i].1)
  }

  lemma AppendListed(o: JsonObject, m: Assignments, k: string)
    requires k in m && ListsExactly(o, m - {k})
    ensures ListsExactly(o + [(k, m[k])], m)
  {
    var r := o + [(k, m[k])];
    forall key | key in m
      ensures exists i :: 0 <= i < |r| && r[i].0 == key
    {
      if key == k {
        assert r[|o|].0 == key;
      } else {
        assert key in m - {k};
        var i :| 0 <= i < |o| && o[i].0 == key;
        assert r[i].0 == key;
      }
    }
  }

  lemma ReadStep(o: JsonObject, r: Assignments)
    requires |o| > 0 && LastMemberWins(o[..|o| - 1], r)
    ensures LastMemberWins(o, r[o[|o| - 1].0 := o[|o| - 1].1])
  {
    var n := |o| - 1;
    var init := o[..n];
    var r' := r[o[n].0 := o[n].1];
    forall k | k in r'
      ensures exists i :: 0 <= i < |o| && o[i].0 == k
    {
      if k != o[n].0 {
        var i :| 0 <= i < |init| && init[i].0 == k;
        assert o[i].0 == k;
      }
    }
    forall k | exists i :: 0 <= i < |o| && o[i].0 == k
      ensures k in r'
    {
      var i :| 0 <= i < |o| && o[i].0 == k;
      if i < n {
        assert init[i].0 == k;
      }
    }
    forall i | 0 <= i < |o| && (forall j :: i < j < |o| ==> o[j].0 != o[i].0)
      ensures o[i].0 in r' && r'[o[i].0] == o[i].1
    {
      if i < n {
        assert init[i] == o[i];
        assert forall j :: i < j < |init| ==> init[j].0 != init[i].0;
      }
    }
  }

  /**
   Writing the map as a JSON object: each key exactly once, with its value.
   The members come in the order the keys were inserted, which the model does
   not track, so any order is allowed.
   */
  ghost function WriteObject(m: Assignments): (r: JsonObject)
    ensures ListsExactly(r, m)
    decreases |m|
  {
    if |m| == 0 then []
    else
      var k :| k in m;
      assert (m - {k}).Keys == m.Keys - {k};
      AppendListed(WriteObject(m - {k}), m, k);
      WriteObject(m - {k}) + [(k, m[k])]
  }

  /** Reading a JSON object into a map, as `JSON.parse` does. */
  function ParseObject(o: JsonObject): (r: Assignments)
    ensures LastMemberWins(o, r)
  {
    if |o| == 0 then map[]
    else
      ReadStep(o, ParseObject(o[..|o| - 1]));
      ParseObject(o[..|o| - 1])[o[|o| - 1].0 := o[|o| - 1].1]
  }

  ghost function Export(cat: seq<Course>, asg: Assignments): ExportDocument {
    ExportDocument(cat, WriteObject(asg))
  }

  /** Opening an exported file: its `asignaciones` member is present and parses as an object. */
  function ReadBack(doc: ExportDocument): ImportFile {
    Parsed(Some(ParseObject(doc.assignments)))
  }

  /** `importJSON`: a present `asignaciones` replaces the whole map, unchecked; otherwise nothing changes. */
  function ImportAssignments(asg: Assignments, file: ImportFile): (r: Assignments)
    ensures file.Parsed? && file.assignments.Some? ==> r == file.assignments.value
    ensures !(file.Parsed? && file.assignments.Some?) ==> r == asg
  {
    match file
    case Parsed(Some(m)) => m
    case _ => asg
  }

  /**
   An import that carries `asignaciones` ignores the current map entirely, so
   importing the same file again changes nothing; any other file is no change.
   */
  lemma ImportReplacesWhole(a: Assignments, b: Assignments, file: ImportFile)
    ensures file.Parsed? && file.assignments.Some? ==> ImportAssignments(a, file) == ImportAssignments(b, file)
    ensures !(file.Parsed? && file.assignments.Some?) ==> ImportAssignments(a, file) == a
    ensures ImportAssignments(ImportAssignments(a, file), file) == ImportAssignments(a, file)
  {
  }

  /** Reading an object that lists a map exactly gives that map back. */
  lemma ReadListed(o: JsonObject, m: Assignments, r: Assignments)
    requires ListsExactly(o, m) && LastMemberWins(o, r)
    ensures r == m
  {
    forall k | k in m
      ensures k in r && r[k] == m[k]
    {
      var i :| 0 <= i < |o| && o[i].0 == k;
      assert forall j :: i < j < |o| ==> o[j].0 != o[i].0;
    }
    forall k | k in r
      ensures k in m
    {
      var i :| 0 <= i < |o| && o[i].0 == k;
    }
  }

  /** Reading back a written object gives the map that was written. */
  lemma ParseWriteRoundTrip(m: Assignments)
    ensures ParseObject(WriteObject(m)) == m
  {
    ReadListed(WriteObject(m), m, ParseObject(WriteObject(m)));
  }

  /** Importing an exported document restores the exported map, whatever the current one. */
  lemma ExportImportRoundTrip(cat: seq<Course>, asg: Assignments, current: Assignments)
    ensures ImportAssignments(current, ReadBack(Export(cat, asg))) == asg
  {
    ParseWriteRoundTrip(asg);
  }

  /**
   Import does not re-check the cap: in any catalog whose electives carry more
   than `TOTAL_ELECTIVOS_PLAN` credits, a file assigning all of them breaks it,
   even from the empty map.
   */
  lemma ImportCanBreakCap(cat: seq<Course>, m: Assignments)
    requires forall e :: e in cat && IsElective(e) ==> IsAssigned(m, e.id)
    requires SumCredits(ElectivesOf(cat)) > ElectiveCap
    ensures CapOk(cat, map[])
    ensures !CapOk(cat, ImportAssignments(map[], Parsed(Some(m))))
  {
    FilterAll(ElectivesOf(cat), InIds(AssignedIds(m)));
    FilterNone(ElectivesOf(cat), InIds(AssignedIds(map[])));
  }

  // ---------------- the elective selector ----------------

  /** The kind and category filters of the toolbar: "Todos" lets every course through, any other choice only the courses of that kind (or category). */
  predicate PassesToolbar(c: Course, kindFilter: string, categoryFilter: string) {
    && (kindFilter == "Todos" || KindName(c.kind) == kindFilter)
    && (categoryFilter == "Todas" || c.category == categoryFilter)
  }

  /**
   The electives `SemestreSelectElectiva` lists, in catalog order: available,
   in the pool `pool` when one is given (`""` for none), passing the toolbar
   filters, and no larger than what remains of the cap.
   */
  function OfferedCourses(cat: seq<Course>, asg: Assignments, pool: string, kindFilter: string, categoryFilter: string)
    : (r: seq<Course>)
    ensures forall c :: c in r <==>
              && c in cat && IsElective(c) && !IsAssigned(asg, c.id)
              && (pool == "" || c.category == pool)
              && PassesToolbar(c, kindFilter, categoryFilter)
              && c.credits <= Remaining(cat, asg)
  {
    var inPool := Filter(Available(cat, asg), (e: Course) => pool == "" || e.category == pool);
    var shown := Filter(inPool, (e: Course) => PassesToolbar(e, kindFilter, categoryFilter));
    Filter(shown, (e: Course) => e.credits <= Remaining(cat, asg))
  }

  /** One `<option>` of the selector. */
  datatype SelectOption = SelectOption(id: string, text: string)

  /** The text of an elective's option: its title, a dash, its category, and its credits in decimal followed by "cr" in parentheses. */
  function OptionLabel(e: Course): (r: string)
    ensures exists n: string :: r == e.title + " — " + e.category + " (" + n + " cr)"
                               && (e.credits >= 0 ==> ParseDecimal(n) == Some(e.credits))
  {
    if e.credits >= 0 then ParseNatToString(e.credits); e.title + " — " + e.category + " (" + IntToString(e.credits) + " cr)"
    else e.title + " — " + e.category + " (" + IntToString(e.credits) + " cr)"
  }

  /** `opciones`. */
  function Offered(cat: seq<Course>, asg: Assignments, pool: string, kindFilter: string, categoryFilter: string)
    : (r: seq<SelectOption>)
    ensures |r| == |OfferedCourses(cat, asg, pool, kindFilter, categoryFilter)|
    ensures forall i :: 0 <= i < |r| ==>
              r[i].id == OfferedCourses(cat, asg, pool, kindFilter, categoryFilter)[i].id
  {
    var cs := OfferedCourses(cat, asg, pool, kindFilter, categoryFilter);
    seq(|cs|, i requires 0 <= i < |cs| => SelectOption(cs[i].id, OptionLabel(cs[i])))
  }

  /** `disabled = electivosRestantes <= 0`. */
  predicate SelectorDisabled(cat: seq<Course>, asg: Assignments) {
    Remaining(cat, asg) <= 0
  }

  /** The selector is disabled exactly when the assigned credits have reached the cap. */
  lemma SelectorDisabledIff(cat: seq<Course>, asg: Assignments)
    ensures SelectorDisabled(cat, asg) <==> AssignedCredits(cat, asg) >= ElectiveCap
  {
  }

  /** Every option the selector offers passes all of `onAdd`'s checks. */
  lemma OfferedPassesAdd(cat: seq<Course>, asg: Assignments, pool: string, kindFilter: string,
                         categoryFilter: string, i: nat)
    requires WellFormed(cat)
    requires i < |Offered(cat, asg, pool, kindFilter, categoryFilter)|
    ensures CheckAdd(cat, asg, Offered(cat, asg, pool, kindFilter, categoryFilter)[i].id) == Accepted
  {
    var e := OfferedCourses(cat, asg, pool, kindFilter, categoryFilter)[i];
    assert e in OfferedCourses(cat, asg, pool, kindFilter, categoryFilter);
    AddVerdictOfElective(cat, asg, e);
  }

  /** Every elective offered is unassigned, and picking it adds exactly its credits. */
  lemma OfferedAddsCredits(cat: seq<Course>, asg: Assignments, pool: string, kindFilter: string,
                           categoryFilter: string, s: nat, e: Course)
    requires WellFormed(cat)
    requires e in OfferedCourses(cat, asg, pool, kindFilter, categoryFilter)
    ensures !IsAssigned(asg, e.id)
    ensures AssignedCredits(cat, AddElective(cat, asg, s, e.id)) == AssignedCredits(cat, asg) + e.credits
  {
    assert e in cat && IsElective(e) && !IsAssigned(asg, e.id) && e.credits <= Remaining(cat, asg);
    AddVerdictOfElective(cat, asg, e);
    AddCountsCredits(cat, asg, s, e);
  }

  // ---------------- the state machine ----------------

  /** The persistent state of the component: `completed` and `asignaciones`. */
  datatype Plan = Plan(completed: set<string>, assignments: Assignments)

  /** The user actions that change the persistent state. */
  datatype Action =
    | Toggle(id: string)
    | Reset
    | Add(semester: nat, id: string)
    | Remove(id: string)
    | Import(file: ImportFile)

  function Step(cat: seq<Course>, p: Plan, a: Action): (r: Plan)
    ensures a.Toggle? || a.Reset? ==> r.assignments == p.assignments
    ensures !(a.Toggle? || a.Reset?) ==> r.completed == p.completed
  {
    match a
    case Toggle(id) => p.(completed := ToggleCompleted(p.completed, id))
    case Reset => p.(completed := ResetCompleted())
    case Add(s, id) => p.(assignments := AddElective(cat, p.assignments, s, id))
    case Remove(id) => p.(assignments := RemoveElective(p.assignments, id))
    case Import(file) => p.(assignments := ImportAssignments(p.assignments, file))
  }

  function Run(cat: seq<Course>, p: Plan, actions: seq<Action>): Plan
    decreases |actions|
  {
    if |actions| == 0 then p else Run(cat, Step(cat, p, actions[0]), actions[1..])
  }

  /** Every action but import keeps the cap. */
  lemma StepKeepsCap(cat: seq<Course>, p: Plan, a: Action)
    requires WellFormed(cat) && CapOk(cat, p.assignments) && !a.Import?
    ensures CapOk(cat, Step(cat, p, a).assignments)
  {
    match a
    case Toggle(_) =>
    case Reset =>
    case Add(s, id) => AddKeepsCap(cat, p.assignments, s, id);
    case Remove(id) => RemoveKeepsCap(cat, p.assignments, id);
  }

  /** The empty map starts within the cap. */
  lemma EmptyCapOk(cat: seq<Course>)
    ensures AssignedCredits(cat, map[]) == 0
    ensures CapOk(cat, map[])
  {
    FilterNone(ElectivesOf(cat), InIds(AssignedIds(map[])));
  }

  /** Any run without an import keeps the cap. */
  lemma {:induction false} RunKeepsCap(cat: seq<Course>, p: Plan, actions: seq<Action>)
    requires WellFormed(cat) && CapOk(cat, p.assignments)
    requires forall i :: 0 <= i < |actions| ==> !actions[i].Import?
    ensures CapOk(cat, Run(cat, p, actions).assignments)
    decreases |actions|
  {
    if |actions| > 0 {
      StepKeepsCap(cat, p, actions[0]);
      RunKeepsCap(cat, Step(cat, p, actions[0]), actions[1..]);
    }
  }
}
