/**
 The per-semester view of src/CurriculumMap.tsx: the search predicate
 `searchMatch` and the grouping `porSemestre` of required courses and placed
 electives into the ten semester lists, each sorted by title.
 */
module View {
  import opened Options
  import opened Seqs
  import opened Strings
  import opened Catalog
  import opened Credits
  import opened Sorting
  import Planner

  // ---------------- search ----------------

  /**
   `searchMatch`: a query that trims to nothing matches every course; otherwise
   the lower-cased query must occur in the lower-cased title, code or category.
   */
  function SearchMatch(query: string, c: Course): (r: bool)
    ensures r <==> || AllWhitespace(query)
                   || OccursIn(Lower(Trim(query)), Lower(c.title))
                   || OccursIn(Lower(Trim(query)), Lower(c.code))
                   || OccursIn(Lower(Trim(query)), Lower(c.category))
  {
    var q := Lower(Trim(query));
    if q == [] then true
    else Includes(Lower(c.title), q) || Includes(Lower(c.code), q) || Includes(Lower(c.category), q)
  }

  /** The search ignores the case of the query. */
  lemma SearchIgnoresQueryCase(query: string, c: Course)
    ensures SearchMatch(Lower(query), c) == SearchMatch(query, c)
  {
    LowerTrimCommute(query);
    LowerIdempotent(Trim(query));
    assert Lower(Trim(Lower(query))) == Lower(Trim(query));
  }

  /** A course is found by its own code, surrounding blanks and letter case aside. */
  lemma SearchFindsCode(query: string, c: Course)
    requires Trim(query) == c.code
    ensures SearchMatch(query, c)
  {
    var q := Lower(Trim(query));
    assert OccursAt(q, Lower(c.code), 0);
  }

  // ---------------- grouping ----------------

  /**
   `p && SEMESTRES.includes(Number(p))` for `p = asignaciones[id]`, with the
   number being `s`: the elective is shown in semester `s`.
   */
  predicate PlacedIn(asg: Assignments, id: string, s: int) {
    IsAssigned(asg, id) && s in Semesters && ParseDecimal(asg[id]) == Some(s)
  }

  /** The required courses the search keeps that sit in semester `s`. */
  function RequiredTest(query: string, s: int): Course -> bool {
    (c: Course) => SearchMatch(query, c) && c.period == Some(s)
  }

  /** The electives the search keeps that are placed in semester `s`. */
  function PlacedTest(query: string, asg: Assignments, s: int): Course -> bool {
    (e: Course) => SearchMatch(query, e) && PlacedIn(asg, e.id, s)
  }

  /** Each elective relabelled with semester `s`, as the second loop of `porSemestre` pushes it. */
  function WithPeriod(cs: seq<Course>, s: int): (r: seq<Course>)
    ensures |r| == |cs|
    ensures forall i :: 0 <= i < |cs| ==> r[i] == cs[i].(period := Some(s))
  {
    seq(|cs|, i requires 0 <= i < |cs| => cs[i].(period := Some(s)))
  }

  /** The list of semester `s` before sorting, in the order the two `forEach` loops push. */
  function Bucket(cat: seq<Course>, asg: Assignments, query: string, s: int): seq<Course> {
    Filter(RequiredOf(cat), RequiredTest(query, s)) + WithPeriod(Filter(ElectivesOf(cat), PlacedTest(query, asg, s)), s)
  }

  /**
   Every required course the search keeps has a semester among `SEMESTRES`;
   otherwise `map.get(c.periodo!)!.push(c)` throws and the page does not render.
   */
  predicate RequiredPlaceable(cat: seq<Course>, query: string) {
    forall c :: c in RequiredOf(cat) && SearchMatch(query, c) ==> c.period.Some? && c.period.value in Semesters
  }

  /** The comparison the lists are sorted by, on course titles; `before` stands for "the comparator returns at most 0". */
  function TitleOrder(before: (string, string) -> bool): (Course, Course) -> bool {
    (a: Course, b: Course) => before(a.title, b.title)
  }

  /**
   `porSemestre`: one list per semester in `SEMESTRES`, each sorted by title;
   `None` stands for the exception thrown when a required course the search
   keeps has no usable semester.
   */
  function SemesterView(cat: seq<Course>, asg: Assignments, query: string, before: (string, string) -> bool)
    : (r: Option<map<int, seq<Course>>>)
    ensures r.Some? <==> RequiredPlaceable(cat, query)
    ensures r.Some? ==> forall s :: s in r.value <==> s in Semesters
  {
    if RequiredPlaceable(cat, query) then
      Some(map s | s in Semesters :: Sort(Bucket(cat, asg, query, s), TitleOrder(before)))
    else None
  }

  // ---------------- properties of the view ----------------

  /** A well-formed catalog always renders, whatever the map and the query. */
  lemma WellFormedRenders(cat: seq<Course>, asg: Assignments, query: string, before: (string, string) -> bool)
    requires WellFormed(cat)
    ensures SemesterView(cat, asg, query, before).Some?
  {
    forall c | c in RequiredOf(cat) && SearchMatch(query, c)
      ensures c.period.Some? && c.period.value in Semesters
    {
      var i :| 0 <= i < |cat| && cat[i] == c;
    }
  }

  /** The course as list `s` shows an elective placed there. */
  function Placed(e: Course, s: int): Course {
    e.(period := Some(s))
  }

  /** The electives the search keeps that are placed in `s`, as list `s` shows them. */
  lemma PlacedMembers(cat: seq<Course>, asg: Assignments, query: string, s: int, c: Course)
    ensures c in WithPeriod(Filter(ElectivesOf(cat), PlacedTest(query, asg, s)), s) <==>
              exists e :: e in cat && IsElective(e) && SearchMatch(query, e) && PlacedIn(asg, e.id, s) && c == Placed(e, s)
  {
    var placed := Filter(ElectivesOf(cat), PlacedTest(query, asg, s));
    if c in WithPeriod(placed, s) {
      var i :| 0 <= i < |WithPeriod(placed, s)| && WithPeriod(placed, s)[i] == c;
      assert placed[i] in placed;
    }
    if exists e :: e in cat && IsElective(e) && SearchMatch(query, e) && PlacedIn(asg, e.id, s) && c == Placed(e, s) {
      var e :| e in cat && IsElective(e) && SearchMatch(query, e) && PlacedIn(asg, e.id, s) && c == Placed(e, s);
      assert e in placed;
      var i :| 0 <= i < |placed| && placed[i] == e;
      assert WithPeriod(placed, s)[i] == c;
    }
  }

  /**
   List `s` holds exactly the required courses of semester `s` the search keeps,
   and the electives the search keeps whose entry reads as `s`, relabelled with
   semester `s`.
   */
  lemma ViewMembers(cat: seq<Course>, asg: Assignments, query: string, before: (string, string) -> bool,
                    s: int, c: Course)
    requires RequiredPlaceable(cat, query) && s in Semesters
    ensures c in SemesterView(cat, asg, query, before).value[s] <==>
              || (c in cat && IsRequired(c) && SearchMatch(query, c) && c.period == Some(s))
              || (exists e :: e in cat && IsElective(e) && SearchMatch(query, e) && PlacedIn(asg, e.id, s) && c == Placed(e, s))
  {
    assert SemesterView(cat, asg, query, before).value[s] == Sort(Bucket(cat, asg, query, s), TitleOrder(before));
    SortMembers(Bucket(cat, asg, query, s), TitleOrder(before), c);
    PlacedMembers(cat, asg, query, s, c);
  }

  lemma TitleOrderPreorder(before: (string, string) -> bool)
    requires TotalPreorder(before)
    ensures TotalPreorder(TitleOrder(before))
  {
    var le := TitleOrder(before);
    forall a: Course, b: Course
      ensures le(a, b) || le(b, a)
    {
      assert before(a.title, b.title) || before(b.title, a.title);
    }
    forall a: Course, b: Course, c: Course | le(a, b) && le(b, c)
      ensures le(a, c)
    {
      assert before(a.title, b.title) && before(b.title, c.title);
    }
  }

  /** Each list is in title order when the comparison is a total preorder. */
  lemma ViewSorted(cat: seq<Course>, asg: Assignments, query: string, before: (string, string) -> bool, s: int)
    requires RequiredPlaceable(cat, query) && s in Semesters
    requires TotalPreorder(before)
    ensures Sorted(SemesterView(cat, asg, query, before).value[s], TitleOrder(before))
  {
    TitleOrderPreorder(before);
    SortSorted(Bucket(cat, asg, query, s), TitleOrder(before));
  }

  /**
   An elective shows up in at most one semester list, and no other course in
   any list, its own included, carries its id.
   */
  lemma ElectiveInOneList(cat: seq<Course>, asg: Assignments, query: string, before: (string, string) -> bool,
                          s1: int, s2: int, c1: Course, c2: Course)
    requires WellFormed(cat)
    requires s1 in Semesters && s2 in Semesters
    requires c1 in SemesterView(cat, asg, query, before).value[s1]
    requires c2 in SemesterView(cat, asg, query, before).value[s2]
    requires IsElective(c1)
    ensures c1.id == c2.id ==> s1 == s2 && c1 == c2
  {
    WellFormedRenders(cat, asg, query, before);
    ViewMembers(cat, asg, query, before, s1, c1);
    ViewMembers(cat, asg, query, before, s2, c2);
    var e1 :| e1 in cat && IsElective(e1) && SearchMatch(query, e1) && PlacedIn(asg, e1.id, s1) && c1 == Placed(e1, s1);
    if c1.id == c2.id {
      if !(c2 in cat && IsRequired(c2) && SearchMatch(query, c2) && c2.period == Some(s2)) {
        var e2 :| e2 in cat && IsElective(e2) && SearchMatch(query, e2) && PlacedIn(asg, e2.id, s2) && c2 == Placed(e2, s2);
        var i :| 0 <= i < |cat| && cat[i] == e1;
        var j :| 0 <= j < |cat| && cat[j] == e2;
        assert i == j;
      }
    }
  }

  /** No semester list holds two entries with the same id, so in particular no entry twice. */
  lemma ListIdsDistinct(cat: seq<Course>, asg: Assignments, query: string, before: (string, string) -> bool, s: int)
    requires WellFormed(cat) && s in Semesters
    ensures SemesterView(cat, asg, query, before).Some?
    ensures forall i, j :: 0 <= i < j < |SemesterView(cat, asg, query, before).value[s]| ==>
              SemesterView(cat, asg, query, before).value[s][i].id != SemesterView(cat, asg, query, before).value[s][j].id
  {
    WellFormedRenders(cat, asg, query, before);
    BucketDistinct(cat, asg, query, s);
    assert SemesterView(cat, asg, query, before).value[s] == Sort(Bucket(cat, asg, query, s), TitleOrder(before));
    PermutationDistinct(Bucket(cat, asg, query, s), Sort(Bucket(cat, asg, query, s), TitleOrder(before)));
  }

  /** Before sorting, list `s` has distinct ids: required and elective ids never coincide in a well-formed catalog. */
  lemma BucketDistinct(cat: seq<Course>, asg: Assignments, query: string, s: int)
    requires WellFormed(cat)
    ensures DistinctIds(Bucket(cat, asg, query, s))
  {
    var required := Filter(RequiredOf(cat), RequiredTest(query, s));
    var placed := Filter(ElectivesOf(cat), PlacedTest(query, asg, s));
    var shown := WithPeriod(placed, s);
    FilterDistinct(cat, IsRequired);
    FilterDistinct(RequiredOf(cat), RequiredTest(query, s));
    ElectivesWellFormed(cat);
    FilterDistinct(ElectivesOf(cat), PlacedTest(query, asg, s));
    assert DistinctIds(shown) by {
      forall i, j | 0 <= i < j < |shown|
        ensures shown[i].id != shown[j].id
      {
        assert shown[i].id == placed[i].id && shown[j].id == placed[j].id;
      }
    }
    forall i, j | 0 <= i < |required| && 0 <= j < |shown|
      ensures required[i].id != shown[j].id
    {
      assert required[i] in required;
      assert placed[j] in placed;
      var k :| 0 <= k < |cat| && cat[k] == required[i];
      var l :| 0 <= l < |cat| && cat[l] == placed[j];
      assert shown[j].id == placed[j].id;
      assert k != l;
    }
    ConcatDistinct(required, shown);
  }

  lemma ConcatDistinct(a: seq<Course>, b: seq<Course>)
    requires DistinctIds(a) && DistinctIds(b)
    requires forall i, j :: 0 <= i < |a| && 0 <= j < |b| ==> a[i].id != b[j].id
    ensures DistinctIds(a + b)
  {
    var r := a + b;
    forall i, j | 0 <= i < j < |r|
      ensures r[i].id != r[j].id
    {
      if j < |a| {
        assert r[i] == a[i] && r[j] == a[j];
      } else if i < |a| {
        assert r[i] == a[i] && r[j] == b[j - |a|];
      } else {
        assert r[i] == b[i - |a|] && r[j] == b[j - |a|];
      }
    }
  }

  /** A rearrangement of a list with distinct ids has distinct ids. */
  lemma PermutationDistinct(b: seq<Course>, l: seq<Course>)
    requires DistinctIds(b) && multiset(l) == multiset(b)
    ensures DistinctIds(l)
  {
    forall i, j | 0 <= i < j < |l|
      ensures l[i].id != l[j].id
    {
      if l[i].id == l[j].id {
        assert l[i] in multiset(b) && l[j] in multiset(b);
        var k :| 0 <= k < |b| && b[k] == l[i];
        var m :| 0 <= m < |b| && b[m] == l[j];
        assert k == m;
        CountedTwice(l, i, j);
        CountedOnce(b, k);
        assert false;
      }
    }
  }

  lemma CountedTwice(l: seq<Course>, i: nat, j: nat)
    requires i < j < |l| && l[i] == l[j]
    ensures multiset(l)[l[i]] >= 2
  {
    assert l == l[..j] + [l[j]] + l[j + 1..];
    assert l[i] in l[..j];
  }

  lemma {:induction false} CountedOnce(b: seq<Course>, k: nat)
    requires DistinctIds(b) && k < |b|
    ensures multiset(b)[b[k]] == 1
  {
    var x := b[k];
    assert b == b[..k] + [x] + b[k + 1..];
    var front, back := b[..k], b[k + 1..];
    assert x !in front by {
      forall i | 0 <= i < |front| ensures front[i] != x { assert front[i] == b[i]; }
    }
    assert x !in back by {
      forall i | 0 <= i < |back| ensures back[i] != x { assert back[i] == b[k + 1 + i]; }
    }
  }

  /**
   An elective whose entry is truthy but does not read as one of `SEMESTRES`
   counts toward the assigned credits yet appears in no list.
   */
  lemma UnplacedCountedButHidden(cat: seq<Course>, asg: Assignments, query: string, before: (string, string) -> bool,
                                 e: Course, s: int, c: Course)
    requires WellFormed(cat) && e in cat && IsElective(e) && IsAssigned(asg, e.id)
    requires !(ParseDecimal(asg[e.id]).Some? && ParseDecimal(asg[e.id]).value in Semesters)
    requires s in Semesters && c in SemesterView(cat, asg, query, before).value[s]
    ensures e in AssignedElectives(cat, asg)
    ensures c.id != e.id
  {
    ViewMembers(cat, asg, query, before, s, c);
  }

  /** An elective the search keeps, once added from the selector of semester `s`, is listed in semester `s`. */
  lemma AddedElectiveShown(cat: seq<Course>, asg: Assignments, query: string, before: (string, string) -> bool,
                           e: Course, s: nat)
    requires WellFormed(cat) && e in cat && IsElective(e) && SearchMatch(query, e) && s in Semesters
    requires Planner.CheckAdd(cat, asg, e.id) == Planner.Accepted
    ensures SemesterView(cat, Planner.AddElective(cat, asg, s, e.id), query, before).Some?
    ensures Placed(e, s) in SemesterView(cat, Planner.AddElective(cat, asg, s, e.id), query, before).value[s]
  {
    var asg' := Planner.AddElective(cat, asg, s, e.id);
    WellFormedRenders(cat, asg', query, before);
    assert PlacedIn(asg', e.id, s);
    ViewMembers(cat, asg', query, before, s, Placed(e, s));
  }

  /** After Quitar an elective appears in no list. */
  lemma RemovedElectiveHidden(cat: seq<Course>, asg: Assignments, query: string, before: (string, string) -> bool,
                              e: Course, s: int, c: Course)
    requires WellFormed(cat) && e in cat && IsElective(e) && s in Semesters
    requires c in SemesterView(cat, Planner.RemoveElective(asg, e.id), query, before).value[s]
    ensures c.id != e.id
  {
    var asg' := Planner.RemoveElective(asg, e.id);
    WellFormedRenders(cat, asg', query, before);
    ViewMembers(cat, asg', query, before, s, c);
  }
}
