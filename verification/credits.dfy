/**
 The credit totals of the planner (src/CurriculumMap.tsx): the assignment map
 and the views derived from it (`idsAsignados`, `electivasDisponibles`), the
 assigned, remaining and completed credits, and the progress percentage.
 Everything here is a function of a catalog `cat`; the catalog the component
 ships is `Catalog.Data`.
 */
module Credits {
  import opened Seqs
  import opened Catalog

  /** `asignaciones`: elective id to the semester it is placed in, as a string. */
  type Assignments = map<string, string>

  /** `asignaciones[id]` is truthy: the key is present and its value is not the empty string. */
  predicate IsAssigned(asg: Assignments, id: string) {
    id in asg && asg[id] != ""
  }

  /** `idsAsignados`: the keys whose value is truthy. */
  function AssignedIds(asg: Assignments): (r: set<string>)
    ensures forall id :: id in r <==> IsAssigned(asg, id)
  {
    set id | id in asg && asg[id] != ""
  }

  /** Membership of a course's id in the set `ids`. */
  function InIds(ids: set<string>): Course -> bool {
    (c: Course) => c.id in ids
  }

  /** Absence of a course's id from the set `ids`. */
  function NotInIds(ids: set<string>): Course -> bool {
    (c: Course) => c.id !in ids
  }

  /** The electives whose map entry is truthy, in catalog order. */
  function AssignedElectives(cat: seq<Course>, asg: Assignments): (r: seq<Course>)
    ensures forall c :: c in r <==> c in cat && IsElective(c) && IsAssigned(asg, c.id)
  {
    Filter(ElectivesOf(cat), InIds(AssignedIds(asg)))
  }

  /** `electivasDisponibles`: the electives without a truthy entry, in catalog order. */
  function Available(cat: seq<Course>, asg: Assignments): (r: seq<Course>)
    ensures forall c :: c in r <==> c in cat && IsElective(c) && !IsAssigned(asg, c.id)
  {
    Filter(ElectivesOf(cat), NotInIds(AssignedIds(asg)))
  }

  /** `creditosElectivosAsignados`. */
  function AssignedCredits(cat: seq<Course>, asg: Assignments): (r: int)
    ensures WellFormed(cat) ==> 0 <= r <= SumCredits(ElectivesOf(cat))
  {
    FilteredElectivesBounds(cat, InIds(AssignedIds(asg)));
    SumCredits(AssignedElectives(cat, asg))
  }

  /** The safety invariant of the planner: at most `TOTAL_ELECTIVOS_PLAN` elective credits are assigned. */
  predicate CapOk(cat: seq<Course>, asg: Assignments) {
    AssignedCredits(cat, asg) <= ElectiveCap
  }

  /** `electivosRestantes`: what is left of the elective cap, never negative. */
  function Remaining(cat: seq<Course>, asg: Assignments): (r: int)
    ensures r >= 0
    ensures CapOk(cat, asg) ==> r == ElectiveCap - AssignedCredits(cat, asg)
    ensures !CapOk(cat, asg) ==> r == 0
    ensures WellFormed(cat) ==> r <= ElectiveCap
  {
    Max(ElectiveCap - AssignedCredits(cat, asg), 0)
  }

  /** `creditosCompletados`: the credits of the catalog courses whose id is in the completion set. */
  function CompletedCredits(cat: seq<Course>, done: set<string>): (r: int)
    ensures (forall c :: c in cat ==> c.id !in done) ==> r == 0
    ensures (forall c :: c in cat ==> c.id in done) ==> r == SumCredits(cat)
  {
    FilterExtremes(cat, InIds(done));
    SumCredits(Filter(cat, InIds(done)))
  }

  /** `creditosObligatorios`. */
  function RequiredCredits(cat: seq<Course>): (r: int)
    ensures WellFormed(cat) ==> 0 <= r <= SumCredits(cat)
  {
    FilteredBounds(cat, IsRequired);
    SumCredits(RequiredOf(cat))
  }

  function Max(a: int, b: int): int {
    if a < b then b else a
  }

  function Min(a: int, b: int): int {
    if a < b then a else b
  }

  /**
   `progresoPct`: completed credits as a percentage of `TOTAL_CREDITOS_PLAN`,
   rounded half up as `Math.round` does, and never above 100.
   */
  function ProgressPercent(completed: int): (r: int)
    ensures r <= 100
    ensures r == 100 <==> completed >= TotalPlanCredits
    ensures r < 100 ==> (r as real) - 0.5 <= (completed as real) / (TotalPlanCredits as real) * 100.0 < (r as real) + 0.5
    ensures completed >= 0 ==> r >= 0
  {
    var rounded := (completed * 100 + TotalPlanCredits / 2) / TotalPlanCredits;
    assert rounded * 160 <= completed * 100 + 80 < rounded * 160 + 160;
    Min(rounded, 100)
  }

  // ---------------- sums over filtered catalogs ----------------

  /** The credits of the courses with id `id` (one course, in a catalog with distinct ids). */
  function CreditsOfId(cs: seq<Course>, id: string): int {
    SumCredits(Filter(cs, InIds({id})))
  }

  function Indicator(b: bool): int {
    if b then 1 else 0
  }

  lemma FilterStep(cs: seq<Course>, p: Course -> bool)
    requires |cs| > 0
    ensures SumCredits(Filter(cs, p)) == (if p(cs[0]) then cs[0].credits else 0) + SumCredits(Filter(cs[1..], p))
  {
    var t := Filter(cs[1..], p);
    if p(cs[0]) {
      assert ([cs[0]] + t)[1..] == t;
    } else {
      assert [] + t == t;
    }
  }

  /**
   Changing whether one id is in the test set changes the filtered sum by the
   credits of the courses carrying that id, and by nothing else.
   */
  lemma {:induction false} SumIdChange(cs: seq<Course>, a: set<string>, b: set<string>, id: string)
    requires forall x :: x != id ==> (x in a <==> x in b)
    ensures SumCredits(Filter(cs, InIds(b)))
            == SumCredits(Filter(cs, InIds(a))) + (Indicator(id in b) - Indicator(id in a)) * CreditsOfId(cs, id)
  {
    if |cs| > 0 {
      FilterStep(cs, InIds(a));
      FilterStep(cs, InIds(b));
      FilterStep(cs, InIds({id}));
      SumIdChange(cs[1..], a, b, id);
    }
  }

  /** Every course passes one of a test and its negation, so the two filtered sums make up the whole. */
  lemma {:induction false} SumSplit(cs: seq<Course>, ids: set<string>)
    ensures SumCredits(Filter(cs, InIds(ids))) + SumCredits(Filter(cs, NotInIds(ids))) == SumCredits(cs)
  {
    if |cs| > 0 {
      FilterStep(cs, InIds(ids));
      FilterStep(cs, NotInIds(ids));
      SumSplit(cs[1..], ids);
    }
  }

  /** With no negative credits, a filtered sum lies between zero and the whole sum. */
  lemma {:induction false} SumFilterBounds(cs: seq<Course>, p: Course -> bool)
    requires CreditsNonNegative(cs)
    ensures 0 <= SumCredits(Filter(cs, p)) <= SumCredits(cs)
  {
    if |cs| > 0 {
      FilterStep(cs, p);
      SumFilterBounds(cs[1..], p);
    }
  }

  lemma {:induction false} FilterDistinct(cs: seq<Course>, p: Course -> bool)
    requires DistinctIds(cs)
    ensures DistinctIds(Filter(cs, p))
  {
    if |cs| > 0 {
      FilterDistinct(cs[1..], p);
      var t := Filter(cs[1..], p);
      if p(cs[0]) {
        var r := [cs[0]] + t;
        forall i, j | 0 <= i < j < |r|
          ensures r[i].id != r[j].id
        {
          if i == 0 {
            assert r[j] in cs[1..];
          }
        }
      } else {
        assert [] + t == t;
      }
    }
  }

  /** In a list with distinct ids, the only course with the id of `c` is `c` itself. */
  lemma {:induction false} CreditsOfMember(cs: seq<Course>, c: Course)
    requires DistinctIds(cs) && c in cs
    ensures CreditsOfId(cs, c.id) == c.credits
  {
    FilterStep(cs, InIds({c.id}));
    if cs[0] == c {
      forall i | 0 <= i < |cs[1..]|
        ensures !InIds({c.id})(cs[1..][i])
      {
        assert cs[1..][i] == cs[i + 1];
      }
      FilterNone(cs[1..], InIds({c.id}));
    } else {
      var k :| 0 <= k < |cs| && cs[k] == c;
      assert cs[0].id != c.id;
      assert c in cs[1..];
      CreditsOfMember(cs[1..], c);
    }
  }

  /** No course carries the id: nothing to count. */
  lemma CreditsOfAbsent(cs: seq<Course>, id: string)
    requires forall c :: c in cs ==> c.id != id
    ensures CreditsOfId(cs, id) == 0
  {
    FilterNone(cs, InIds({id}));
  }

  lemma ElectivesWellFormed(cat: seq<Course>)
    requires WellFormed(cat)
    ensures DistinctIds(ElectivesOf(cat))
    ensures CreditsNonNegative(ElectivesOf(cat))
  {
    FilterDistinct(cat, IsElective);
    forall i | 0 <= i < |ElectivesOf(cat)|
      ensures ElectivesOf(cat)[i].credits >= 0
    {
      assert ElectivesOf(cat)[i] in cat;
    }
  }

  /** In a well-formed catalog a filtered sum lies between zero and the whole sum. */
  lemma FilteredBounds(cat: seq<Course>, p: Course -> bool)
    ensures WellFormed(cat) ==> 0 <= SumCredits(Filter(cat, p)) <= SumCredits(cat)
  {
    if WellFormed(cat) {
      SumFilterBounds(cat, p);
    }
  }

  /** In a well-formed catalog a filtered sum of electives lies between zero and all elective credits. */
  lemma FilteredElectivesBounds(cat: seq<Course>, p: Course -> bool)
    ensures WellFormed(cat) ==> 0 <= SumCredits(Filter(ElectivesOf(cat), p)) <= SumCredits(ElectivesOf(cat))
  {
    if WellFormed(cat) {
      ElectivesWellFormed(cat);
      SumFilterBounds(ElectivesOf(cat), p);
    }
  }

  /** A test no course passes sums to zero; one every course passes sums to the whole. */
  lemma FilterExtremes(cs: seq<Course>, p: Course -> bool)
    ensures (forall c :: c in cs ==> !p(c)) ==> SumCredits(Filter(cs, p)) == 0
    ensures (forall c :: c in cs ==> p(c)) ==> SumCredits(Filter(cs, p)) == SumCredits(cs)
  {
    if forall c :: c in cs ==> !p(c) {
      FilterNone(cs, p);
    }
    if forall c :: c in cs ==> p(c) {
      FilterAll(cs, p);
    }
  }

  // ---------------- properties of the totals ----------------

  /**
   `electivasDisponibles` is the complement of the assigned electives: their
   credits together make up every elective credit of the catalog.
   */
  lemma AvailablePartition(cat: seq<Course>, asg: Assignments)
    ensures AssignedCredits(cat, asg) + SumCredits(Available(cat, asg)) == SumCredits(ElectivesOf(cat))
  {
    SumSplit(ElectivesOf(cat), AssignedIds(asg));
  }

  /** Entries that are not electives of the catalog, or whose value is the empty string, count for nothing. */
  lemma AssignedCreditsOnlyElectives(cat: seq<Course>, a: Assignments, b: Assignments)
    requires forall c :: c in cat && IsElective(c) ==> (IsAssigned(a, c.id) <==> IsAssigned(b, c.id))
    ensures AssignedCredits(cat, a) == AssignedCredits(cat, b)
  {
    var ea := AssignedElectives(cat, a);
    var eb := AssignedElectives(cat, b);
    FilterSameTest(ElectivesOf(cat), InIds(AssignedIds(a)), InIds(AssignedIds(b)));
  }

  /** Only catalog ids count toward completed credits: ids outside the catalog change nothing. */
  lemma CompletedCreditsOnlyCatalog(cat: seq<Course>, a: set<string>, b: set<string>)
    requires forall c :: c in cat ==> (c.id in a <==> c.id in b)
    ensures CompletedCredits(cat, a) == CompletedCredits(cat, b)
  {
    FilterSameTest(cat, InIds(a), InIds(b));
  }

  /** Completed credits never exceed the catalog's total, and are zero or more. */
  lemma CompletedCreditsBounds(cat: seq<Course>, done: set<string>)
    requires WellFormed(cat)
    ensures 0 <= CompletedCredits(cat, done) <= SumCredits(cat)
  {
    SumFilterBounds(cat, InIds(done));
  }

  /** Assigning a further id to a non-empty semester adds that elective's credits, unless it was assigned already. */
  lemma AssignedCreditsAfterSet(cat: seq<Course>, asg: Assignments, e: Course, v: string)
    requires WellFormed(cat)
    requires e in cat && IsElective(e) && v != ""
    ensures AssignedCredits(cat, asg[e.id := v])
            == AssignedCredits(cat, asg) + (if IsAssigned(asg, e.id) then 0 else e.credits)
  {
    var es := ElectivesOf(cat);
    ElectivesWellFormed(cat);
    assert e in es;
    CreditsOfMember(es, e);
    AssignedIdsAfterSet(asg, e.id, v);
    SumIdChange(es, AssignedIds(asg), AssignedIds(asg[e.id := v]), e.id);
  }

  /** Deleting a key unassigns that id and leaves every other id as it was. */
  lemma AssignedIdsAfterDelete(asg: Assignments, id: string)
    ensures id !in AssignedIds(asg - {id})
    ensures forall x :: x != id ==> (x in AssignedIds(asg) <==> x in AssignedIds(asg - {id}))
  {
  }

  /** Setting a non-empty value assigns `id` and leaves every other id as it was. */
  lemma AssignedIdsAfterSet(asg: Assignments, id: string, v: string)
    requires v != ""
    ensures id in AssignedIds(asg[id := v])
    ensures id in AssignedIds(asg) <==> IsAssigned(asg, id)
    ensures forall x :: x != id ==> (x in AssignedIds(asg) <==> x in AssignedIds(asg[id := v]))
  {
  }

  /** Deleting an id takes that elective's credits away if it was assigned, and changes nothing else. */
  lemma AssignedCreditsAfterDelete(cat: seq<Course>, asg: Assignments, id: string)
    requires WellFormed(cat)
    ensures AssignedCredits(cat, asg - {id}) <= AssignedCredits(cat, asg)
    ensures forall e :: e in cat && IsElective(e) && e.id == id && IsAssigned(asg, id) ==>
              AssignedCredits(cat, asg - {id}) == AssignedCredits(cat, asg) - e.credits
  {
    ElectivesWellFormed(cat);
    SumIdChange(ElectivesOf(cat), AssignedIds(asg), AssignedIds(asg - {id}), id);
    if exists e :: e in ElectivesOf(cat) && e.id == id {
      var e :| e in ElectivesOf(cat) && e.id == id;
      CreditsOfMember(ElectivesOf(cat), e);
      forall e' | e' in cat && IsElective(e') && e'.id == id
        ensures e' == e
      {
        assert e' in ElectivesOf(cat);
        var i :| 0 <= i < |ElectivesOf(cat)| && ElectivesOf(cat)[i] == e;
        var j :| 0 <= j < |ElectivesOf(cat)| && ElectivesOf(cat)[j] == e';
      }
    } else {
      CreditsOfAbsent(ElectivesOf(cat), id);
    }
  }
}
