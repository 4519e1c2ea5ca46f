/**
 Facts about the concrete catalog `DATA`: it is well formed, and its required
 courses add up to the plan's required-credit total. The proofs work block by
 block; each block's ids are restated as a plain table of strings so that the
 solver compares short strings rather than whole course records.
 */
module CatalogFacts {
  import opened Options
  import opened Seqs
  import opened Catalog

  function IdsOf(cs: seq<Course>): (r: seq<string>)
    ensures |r| == |cs| && forall i :: 0 <= i < |cs| ==> r[i] == cs[i].id
  {
    seq(|cs|, i requires 0 <= i < |cs| => cs[i].id)
  }

  predicate NoDuplicates(xs: seq<string>) {
    forall i, j :: 0 <= i < j < |xs| ==> xs[i] != xs[j]
  }

  predicate Disjoint(xs: seq<string>, ys: seq<string>) {
    forall i, j :: 0 <= i < |xs| && 0 <= j < |ys| ==> xs[i] != ys[j]
  }

  // ---------------- block-wise reasoning ----------------

  lemma {:induction false} InFlatten(parts: seq<seq<Course>>, x: Course)
    requires x in Flatten(parts)
    ensures exists k :: 0 <= k < |parts| && x in parts[k]
  {
    if x !in parts[0] {
      InFlatten(parts[1..], x);
      var k :| 0 <= k < |parts[1..]| && x in parts[1..][k];
      assert x in parts[k + 1];
    }
  }

  lemma DistinctConcat(a: seq<Course>, b: seq<Course>)
    requires DistinctIds(a) && DistinctIds(b)
    requires forall x, y :: x in a && y in b ==> x.id != y.id
    ensures DistinctIds(a + b)
  {
    var ab := a + b;
    forall i, j | 0 <= i < j < |ab|
      ensures ab[i].id != ab[j].id
    {
      if j < |a| {
        assert ab[i] == a[i] && ab[j] == a[j];
      } else if i >= |a| {
        assert ab[i] == b[i - |a|] && ab[j] == b[j - |a|];
      } else {
        assert ab[i] in a && ab[j] in b;
      }
    }
  }

  lemma {:induction false} DistinctFlatten(parts: seq<seq<Course>>, tables: seq<seq<string>>)
    requires |parts| == |tables|
    requires forall k :: 0 <= k < |parts| ==> IdsOf(parts[k]) == tables[k] && NoDuplicates(tables[k])
    requires forall k, l :: 0 <= k < l < |tables| ==> Disjoint(tables[k], tables[l])
    ensures DistinctIds(Flatten(parts))
  {
    if |parts| > 0 {
      DistinctFlatten(parts[1..], tables[1..]);
      assert DistinctIds(parts[0]) by {
        forall i, j | 0 <= i < j < |parts[0]|
          ensures parts[0][i].id != parts[0][j].id
        {
          assert IdsOf(parts[0])[i] == parts[0][i].id;
          assert IdsOf(parts[0])[j] == parts[0][j].id;
        }
      }
      forall x, y | x in parts[0] && y in Flatten(parts[1..])
        ensures x.id != y.id
      {
        InFlatten(parts[1..], y);
        var l :| 0 <= l < |parts[1..]| && y in parts[1..][l];
        var i :| 0 <= i < |parts[0]| && parts[0][i] == x;
        var j :| 0 <= j < |parts[l + 1]| && parts[l + 1][j] == y;
        assert IdsOf(parts[0])[i] == x.id;
        assert IdsOf(parts[l + 1])[j] == y.id;
        assert Disjoint(tables[0], tables[l + 1]);
      }
      DistinctConcat(parts[0], Flatten(parts[1..]));
    }
  }

  lemma AllOkFlatten(parts: seq<seq<Course>>)
    requires forall k, i :: 0 <= k < |parts| && 0 <= i < |parts[k]| ==> CourseOk(parts[k][i])
    ensures forall i :: 0 <= i < |Flatten(parts)| ==> CourseOk(Flatten(parts)[i])
  {
    forall i | 0 <= i < |Flatten(parts)|
      ensures CourseOk(Flatten(parts)[i])
    {
      var x := Flatten(parts)[i];
      InFlatten(parts, x);
      var k :| 0 <= k < |parts| && x in parts[k];
      var j :| 0 <= j < |parts[k]| && parts[k][j] == x;
    }
  }

  /** Each block's ids are listed, in order, by the table at the same position, and each entry is well formed. */
  predicate LinkedBlocks(parts: seq<seq<Course>>, tables: seq<seq<string>>) {
    && |parts| == |tables|
    && (forall k :: 0 <= k < |parts| ==> IdsOf(parts[k]) == tables[k])
    && (forall k, i :: 0 <= k < |parts| && 0 <= i < |parts[k]| ==> CourseOk(parts[k][i]))
  }

  /** No id is repeated within a table or shared between two tables. */
  predicate SeparateTables(tables: seq<seq<string>>) {
    && (forall k :: 0 <= k < |tables| ==> NoDuplicates(tables[k]))
    && (forall k, l :: 0 <= k < l < |tables| ==> Disjoint(tables[k], tables[l]))
  }

  lemma WellFormedFlatten(parts: seq<seq<Course>>, tables: seq<seq<string>>)
    requires LinkedBlocks(parts, tables) && SeparateTables(tables)
    ensures WellFormed(Flatten(parts))
  {
    DistinctFlatten(parts, tables);
    AllOkFlatten(parts);
  }

  function SumInts(xs: seq<int>): int {
    if |xs| == 0 then 0 else xs[0] + SumInts(xs[1..])
  }

  /** The credits of a list of courses, entry by entry. */
  function CreditsOf(cs: seq<Course>): (r: seq<int>)
    ensures |r| == |cs|
    ensures forall i :: 0 <= i < |cs| ==> r[i] == cs[i].credits
  {
    seq(|cs|, i requires 0 <= i < |cs| => cs[i].credits)
  }

  lemma {:induction false} SumCreditsOf(cs: seq<Course>)
    ensures SumCredits(cs) == SumInts(CreditsOf(cs))
  {
    if |cs| > 0 {
      assert CreditsOf(cs)[1..] == CreditsOf(cs[1..]);
      SumCreditsOf(cs[1..]);
    }
  }

  predicate AllRequired(cs: seq<Course>) {
    forall i :: 0 <= i < |cs| ==> IsRequired(cs[i])
  }

  predicate AllElective(cs: seq<Course>) {
    forall i :: 0 <= i < |cs| ==> IsElective(cs[i])
  }

  /** A block holds only required courses worth `n` credits in all, or only electives and `n` is zero. */
  predicate RequiredCreditsListed(cs: seq<Course>, n: int) {
    || (AllRequired(cs) && SumInts(CreditsOf(cs)) == n)
    || (AllElective(cs) && n == 0)
  }

  /** Each block's required credits are listed by the table at the same position. */
  predicate ListedBlocks(parts: seq<seq<Course>>, sums: seq<int>) {
    && |sums| == |parts|
    && forall k :: 0 <= k < |parts| ==> RequiredCreditsListed(parts[k], sums[k])
  }

  lemma {:induction false} RequiredCreditsFlatten(parts: seq<seq<Course>>, sums: seq<int>)
    requires ListedBlocks(parts, sums)
    ensures SumCredits(RequiredOf(Flatten(parts))) == SumInts(sums)
  {
    if |parts| > 0 {
      if AllRequired(parts[0]) && SumInts(CreditsOf(parts[0])) == sums[0] {
        FilterAll(parts[0], IsRequired);
        SumCreditsOf(parts[0]);
      } else {
        FilterNone(parts[0], IsRequired);
      }
      FilterConcat(parts[0], Flatten(parts[1..]), IsRequired);
      SumConcat(RequiredOf(parts[0]), RequiredOf(Flatten(parts[1..])));
      RequiredCreditsFlatten(parts[1..], sums[1..]);
    }
  }

  // ---------------- the blocks of DATA ----------------

  const Semester1Ids: seq<string> := ["503438689", "503438688", "80017", "40003", "40002"]
  const Semester2Ids: seq<string> := ["518002", "520027", "700004", "517031", "200611", "200610"]
  const Semester3Ids: seq<string> := ["518007", "517022", "150001", "503438691", "518015", "518003"]
  const Semester4Ids: seq<string> := ["518008", "520026", "517020", "518014", "520025"]
  const Semester5Ids: seq<string> := ["518009", "517021", "518005", "503438690", "500001"]
  const Semester6Ids: seq<string> := ["518010", "517027", "518004", "503438692"]
  const Semester7Ids: seq<string> := ["518011", "517028", "518006", "503438693", "518023"]
  const Semester8Ids: seq<string> := ["518012", "517023", "518018", "518021"]
  const Semester9Ids: seq<string> := ["503438694", "518024", "518019"]
  const Semester10Ids: seq<string> := ["517018_TIC", "503438695", "518020", "OPCGRADO"]
  const ElectiveFCIds: seq<string> := ["300040", "80003", "80005", "80008", "80011", "80002", "80004", "80007", "80010", "80012"]
  const ElectiveIBCIds: seq<string> := ["ELE_A1", "ELE_A2", "40004", "40006", "90007", "105020", "204040", "40005", "358028", "112001", "120002", "105019"]
  const ElectiveDCIds: seq<string> := ["50003", "50017", "50020", "514520", "518025", "520024", "50011", "50018", "401432", "514521", "520028", "511001", "50016", "50019", "514519", "517032", "712003"]
  const ElectiveDEIds: seq<string> := ["ELE_B1", "ELE_B1P", "551002_E", "551030", "551033", "551036", "450073", "551029", "551032", "503438696", "551038", "551031", "503438697", "551037", "450058"]

  const IdTables: seq<seq<string>> := [
    Semester1Ids, Semester2Ids, Semester3Ids, Semester4Ids, Semester5Ids,
    Semester6Ids, Semester7Ids, Semester8Ids, Semester9Ids, Semester10Ids,
    ElectiveFCIds, ElectiveIBCIds, ElectiveDCIds, ElectiveDEIds
  ]

  lemma Semester1IdsTable()
    ensures IdsOf(Semester1) == Semester1Ids
  {
  }

  lemma Semester1EntriesOk()
    ensures forall i :: 0 <= i < |Semester1| ==> CourseOk(Semester1[i]) && IsRequired(Semester1[i])
  {
  }

  const Semester1CreditList: seq<int> := [3, 3, 3, 3, 3]

  lemma Semester1RequiredSum()
    ensures AllRequired(Semester1) && SumInts(CreditsOf(Semester1)) == 15
  {
    Semester1EntriesOk();
    assert CreditsOf(Semester1) == Semester1CreditList;
  }

  lemma Semester2IdsTable()
    ensures IdsOf(Semester2) == Semester2Ids
  {
  }

  lemma Semester2EntriesOk()
    ensures forall i :: 0 <= i < |Semester2| ==> CourseOk(Semester2[i]) && IsRequired(Semester2[i])
  {
  }

  const Semester2CreditList: seq<int> := [3, 4, 0, 3, 3, 3]

  lemma Semester2RequiredSum()
    ensures AllRequired(Semester2) && SumInts(CreditsOf(Semester2)) == 16
  {
    Semester2EntriesOk();
    assert CreditsOf(Semester2) == Semester2CreditList;
  }

  lemma Semester3IdsTable()
    ensures IdsOf(Semester3) == Semester3Ids
  {
  }

  lemma Semester3EntriesOk()
    ensures forall i :: 0 <= i < |Semester3| ==> CourseOk(Semester3[i]) && IsRequired(Semester3[i])
  {
  }

  const Semester3CreditList: seq<int> := [3, 3, 3, 3, 2, 2]

  lemma Semester3RequiredSum()
    ensures AllRequired(Semester3) && SumInts(CreditsOf(Semester3)) == 16
  {
    Semester3EntriesOk();
    assert CreditsOf(Semester3) == Semester3CreditList;
  }

  lemma Semester4IdsTable()
    ensures IdsOf(Semester4) == Semester4Ids
  {
  }

  lemma Semester4EntriesOk()
    ensures forall i :: 0 <= i < |Semester4| ==> CourseOk(Semester4[i]) && IsRequired(Semester4[i])
  {
  }

  const Semester4CreditList: seq<int> := [3, 3, 3, 2, 3]

  lemma Semester4RequiredSum()
    ensures AllRequired(Semester4) && SumInts(CreditsOf(Semester4)) == 14
  {
    Semester4EntriesOk();
    assert CreditsOf(Semester4) == Semester4CreditList;
  }

  lemma Semester5IdsTable()
    ensures IdsOf(Semester5) == Semester5Ids
  {
  }

  lemma Semester5EntriesOk()
    ensures forall i :: 0 <= i < |Semester5| ==> CourseOk(Semester5[i]) && IsRequired(Semester5[i])
  {
  }

  const Semester5CreditList: seq<int> := [3, 3, 3, 3, 3]

  lemma Semester5RequiredSum()
    ensures AllRequired(Semester5) && SumInts(CreditsOf(Semester5)) == 15
  {
    Semester5EntriesOk();
    assert CreditsOf(Semester5) == Semester5CreditList;
  }

  lemma Semester6IdsTable()
    ensures IdsOf(Semester6) == Semester6Ids
  {
  }

  lemma Semester6EntriesOk()
    ensures forall i :: 0 <= i < |Semester6| ==> CourseOk(Semester6[i]) && IsRequired(Semester6[i])
  {
  }

  const Semester6CreditList: seq<int> := [3, 3, 3, 3]

  lemma Semester6RequiredSum()
    ensures AllRequired(Semester6) && SumInts(CreditsOf(Semester6)) == 12
  {
    Semester6EntriesOk();
    assert CreditsOf(Semester6) == Semester6CreditList;
  }

  lemma Semester7IdsTable()
    ensures IdsOf(Semester7) == Semester7Ids
  {
  }

  lemma Semester7EntriesOk()
    ensures forall i :: 0 <= i < |Semester7| ==> CourseOk(Semester7[i]) && IsRequired(Semester7[i])
  {
  }

  const Semester7CreditList: seq<int> := [3, 3, 3, 3, 3]

  lemma Semester7RequiredSum()
    ensures AllRequired(Semester7) && SumInts(CreditsOf(Semester7)) == 15
  {
    Semester7EntriesOk();
    assert CreditsOf(Semester7) == Semester7CreditList;
  }

  lemma Semester8IdsTable()
    ensures IdsOf(Semester8) == Semester8Ids
  {
  }

  lemma Semester8EntriesOk()
    ensures forall i :: 0 <= i < |Semester8| ==> CourseOk(Semester8[i]) && IsRequired(Semester8[i])
  {
  }

  const Semester8CreditList: seq<int> := [3, 3, 3, 3]

  lemma Semester8RequiredSum()
    ensures AllRequired(Semester8) && SumInts(CreditsOf(Semester8)) == 12
  {
    Semester8EntriesOk();
    assert CreditsOf(Semester8) == Semester8CreditList;
  }

  lemma Semester9IdsTable()
    ensures IdsOf(Semester9) == Semester9Ids
  {
  }

  lemma Semester9EntriesOk()
    ensures forall i :: 0 <= i < |Semester9| ==> CourseOk(Semester9[i]) && IsRequired(Semester9[i])
  {
  }

  const Semester9CreditList: seq<int> := [3, 3, 3]

  lemma Semester9RequiredSum()
    ensures AllRequired(Semester9) && SumInts(CreditsOf(Semester9)) == 9
  {
    Semester9EntriesOk();
    assert CreditsOf(Semester9) == Semester9CreditList;
  }

  lemma Semester10IdsTable()
    ensures IdsOf(Semester10) == Semester10Ids
  {
  }

  lemma Semester10EntriesOk()
    ensures forall i :: 0 <= i < |Semester10| ==> CourseOk(Semester10[i]) && IsRequired(Semester10[i])
  {
  }

  const Semester10CreditList: seq<int> := [3, 3, 3, 0]

  lemma Semester10RequiredSum()
    ensures AllRequired(Semester10) && SumInts(CreditsOf(Semester10)) == 9
  {
    Semester10EntriesOk();
    assert CreditsOf(Semester10) == Semester10CreditList;
  }

  lemma ElectiveFCIdsTable()
    ensures IdsOf(ElectiveFC) == ElectiveFCIds
  {
  }

  lemma ElectiveFCEntriesOk()
    ensures forall i :: 0 <= i < |ElectiveFC| ==> CourseOk(ElectiveFC[i]) && IsElective(ElectiveFC[i])
  {
  }

  lemma ElectiveFCKinds()
    ensures AllElective(ElectiveFC)
  {
    ElectiveFCEntriesOk();
  }

  lemma ElectiveIBCIdsTable()
    ensures IdsOf(ElectiveIBC) == ElectiveIBCIds
  {
  }

  lemma ElectiveIBCEntriesOk()
    ensures forall i :: 0 <= i < |ElectiveIBC| ==> CourseOk(ElectiveIBC[i]) && IsElective(ElectiveIBC[i])
  {
  }

  lemma ElectiveIBCKinds()
    ensures AllElective(ElectiveIBC)
  {
    ElectiveIBCEntriesOk();
  }

  lemma ElectiveDCIdsTable()
    ensures IdsOf(ElectiveDC) == ElectiveDCIds
  {
  }

  lemma ElectiveDCEntriesOk()
    ensures forall i :: 0 <= i < |ElectiveDC| ==> CourseOk(ElectiveDC[i]) && IsElective(ElectiveDC[i])
  {
  }

  lemma ElectiveDCKinds()
    ensures AllElective(ElectiveDC)
  {
    ElectiveDCEntriesOk();
  }

  lemma ElectiveDEIdsTable()
    ensures IdsOf(ElectiveDE) == ElectiveDEIds
  {
  }

  lemma ElectiveDEEntriesOk()
    ensures forall i :: 0 <= i < |ElectiveDE| ==> CourseOk(ElectiveDE[i]) && IsElective(ElectiveDE[i])
  {
  }

  lemma ElectiveDEKinds()
    ensures AllElective(ElectiveDE)
  {
    ElectiveDEEntriesOk();
  }

  // One lemma per table and per pair of tables: each compares two short string
  // literals, and keeping them apart gives the solver one small comparison at a
  // time, where a lemma per block would ask it for hundreds at once.
  lemma Semester1IdsDistinct() ensures NoDuplicates(Semester1Ids) {}
  lemma Semester1ApartSemester2() ensures Disjoint(Semester1Ids, Semester2Ids) {}
  lemma Semester1ApartSemester3() ensures Disjoint(Semester1Ids, Semester3Ids) {}
  lemma Semester1ApartSemester4() ensures Disjoint(Semester1Ids, Semester4Ids) {}
  lemma Semester1ApartSemester5() ensures Disjoint(Semester1Ids, Semester5Ids) {}
  lemma Semester1ApartSemester6() ensures Disjoint(Semester1Ids, Semester6Ids) {}
  lemma Semester1ApartSemester7() ensures Disjoint(Semester1Ids, Semester7Ids) {}
  lemma Semester1ApartSemester8() ensures Disjoint(Semester1Ids, Semester8Ids) {}
  lemma Semester1ApartSemester9() ensures Disjoint(Semester1Ids, Semester9Ids) {}
  lemma Semester1ApartSemester10() ensures Disjoint(Semester1Ids, Semester10Ids) {}
  lemma Semester1ApartElectiveFC() ensures Disjoint(Semester1Ids, ElectiveFCIds) {}
  lemma Semester1ApartElectiveIBC() ensures Disjoint(Semester1Ids, ElectiveIBCIds) {}
  lemma Semester1ApartElectiveDC() ensures Disjoint(Semester1Ids, ElectiveDCIds) {}
  lemma Semester1ApartElectiveDE() ensures Disjoint(Semester1Ids, ElectiveDEIds) {}
  lemma Semester2IdsDistinct() ensures NoDuplicates(Semester2Ids) {}
  lemma Semester2ApartSemester3() ensures Disjoint(Semester2Ids, Semester3Ids) {}
  lemma Semester2ApartSemester4() ensures Disjoint(Semester2Ids, Semester4Ids) {}
  lemma Semester2ApartSemester5() ensures Disjoint(Semester2Ids, Semester5Ids) {}
  lemma Semester2ApartSemester6() ensures Disjoint(Semester2Ids, Semester6Ids) {}
  lemma Semester2ApartSemester7() ensures Disjoint(Semester2Ids, Semester7Ids) {}
  lemma Semester2ApartSemester8() ensures Disjoint(Semester2Ids, Semester8Ids) {}
  lemma Semester2ApartSemester9() ensures Disjoint(Semester2Ids, Semester9Ids) {}
  lemma Semester2ApartSemester10() ensures Disjoint(Semester2Ids, Semester10Ids) {}
  lemma Semester2ApartElectiveFC() ensures Disjoint(Semester2Ids, ElectiveFCIds) {}
  lemma Semester2ApartElectiveIBC() ensures Disjoint(Semester2Ids, ElectiveIBCIds) {}
  lemma Semester2ApartElectiveDC() ensures Disjoint(Semester2Ids, ElectiveDCIds) {}
  lemma Semester2ApartElectiveDE() ensures Disjoint(Semester2Ids, ElectiveDEIds) {}
  lemma Semester3IdsDistinct() ensures NoDuplicates(Semester3Ids) {}
  lemma Semester3ApartSemester4() ensures Disjoint(Semester3Ids, Semester4Ids) {}
  lemma Semester3ApartSemester5() ensures Disjoint(Semester3Ids, Semester5Ids) {}
  lemma Semester3ApartSemester6() ensures Disjoint(Semester3Ids, Semester6Ids) {}
  lemma Semester3ApartSemester7() ensures Disjoint(Semester3Ids, Semester7Ids) {}
  lemma Semester3ApartSemester8() ensures Disjoint(Semester3Ids, Semester8Ids) {}
  lemma Semester3ApartSemester9() ensures Disjoint(Semester3Ids, Semester9Ids) {}
  lemma Semester3ApartSemester10() ensures Disjoint(Semester3Ids, Semester10Ids) {}
  lemma Semester3ApartElectiveFC() ensures Disjoint(Semester3Ids, ElectiveFCIds) {}
  lemma Semester3ApartElectiveIBC() ensures Disjoint(Semester3Ids, ElectiveIBCIds) {}
  lemma Semester3ApartElectiveDC() ensures Disjoint(Semester3Ids, ElectiveDCIds) {}
  lemma Semester3ApartElectiveDE() ensures Disjoint(Semester3Ids, ElectiveDEIds) {}
  lemma Semester4IdsDistinct() ensures NoDuplicates(Semester4Ids) {}
  lemma Semester4ApartSemester5() ensures Disjoint(Semester4Ids, Semester5Ids) {}
  lemma Semester4ApartSemester6() ensures Disjoint(Semester4Ids, Semester6Ids) {}
  lemma Semester4ApartSemester7() ensures Disjoint(Semester4Ids, Semester7Ids) {}
  lemma Semester4ApartSemester8() ensures Disjoint(Semester4Ids, Semester8Ids) {}
  lemma Semester4ApartSemester9() ensures Disjoint(Semester4Ids, Semester9Ids) {}
  lemma Semester4ApartSemester10() ensures Disjoint(Semester4Ids, Semester10Ids) {}
  lemma Semester4ApartElectiveFC() ensures Disjoint(Semester4Ids, ElectiveFCIds) {}
  lemma Semester4ApartElectiveIBC() ensures Disjoint(Semester4Ids, ElectiveIBCIds) {}
  lemma Semester4ApartElectiveDC() ensures Disjoint(Semester4Ids, ElectiveDCIds) {}
  lemma Semester4ApartElectiveDE() ensures Disjoint(Semester4Ids, ElectiveDEIds) {}
  lemma Semester5IdsDistinct() ensures NoDuplicates(Semester5Ids) {}
  lemma Semester5ApartSemester6() ensures Disjoint(Semester5Ids, Semester6Ids) {}
  lemma Semester5ApartSemester7() ensures Disjoint(Semester5Ids, Semester7Ids) {}
  lemma Semester5ApartSemester8() ensures Disjoint(Semester5Ids, Semester8Ids) {}
  lemma Semester5ApartSemester9() ensures Disjoint(Semester5Ids, Semester9Ids) {}
  lemma Semester5ApartSemester10() ensures Disjoint(Semester5Ids, Semester10Ids) {}
  lemma Semester5ApartElectiveFC() ensures Disjoint(Semester5Ids, ElectiveFCIds) {}
  lemma Semester5ApartElectiveIBC() ensures Disjoint(Semester5Ids, ElectiveIBCIds) {}
  lemma Semester5ApartElectiveDC() ensures Disjoint(Semester5Ids, ElectiveDCIds) {}
  lemma Semester5ApartElectiveDE() ensures Disjoint(Semester5Ids, ElectiveDEIds) {}
  lemma Semester6IdsDistinct() ensures NoDuplicates(Semester6Ids) {}
  lemma Semester6ApartSemester7() ensures Disjoint(Semester6Ids, Semester7Ids) {}
  lemma Semester6ApartSemester8() ensures Disjoint(Semester6Ids, Semester8Ids) {}
  lemma Semester6ApartSemester9() ensures Disjoint(Semester6Ids, Semester9Ids) {}
  lemma Semester6ApartSemester10() ensures Disjoint(Semester6Ids, Semester10Ids) {}
  lemma Semester6ApartElectiveFC() ensures Disjoint(Semester6Ids, ElectiveFCIds) {}
  lemma Semester6ApartElectiveIBC() ensures Disjoint(Semester6Ids, ElectiveIBCIds) {}
  lemma Semester6ApartElectiveDC() ensures Disjoint(Semester6Ids, ElectiveDCIds) {}
  lemma Semester6ApartElectiveDE() ensures Disjoint(Semester6Ids, ElectiveDEIds) {}
  lemma Semester7IdsDistinct() ensures NoDuplicates(Semester7Ids) {}
  lemma Semester7ApartSemester8() ensures Disjoint(Semester7Ids, Semester8Ids) {}
  lemma Semester7ApartSemester9() ensures Disjoint(Semester7Ids, Semester9Ids) {}
  lemma Semester7ApartSemester10() ensures Disjoint(Semester7Ids, Semester10Ids) {}
  lemma Semester7ApartElectiveFC() ensures Disjoint(Semester7Ids, ElectiveFCIds) {}
  lemma Semester7ApartElectiveIBC() ensures Disjoint(Semester7Ids, ElectiveIBCIds) {}
  lemma Semester7ApartElectiveDC() ensures Disjoint(Semester7Ids, ElectiveDCIds) {}
  lemma Semester7ApartElectiveDE() ensures Disjoint(Semester7Ids, ElectiveDEIds) {}
  lemma Semester8IdsDistinct() ensures NoDuplicates(Semester8Ids) {}
  lemma Semester8ApartSemester9() ensures Disjoint(Semester8Ids, Semester9Ids) {}
  lemma Semester8ApartSemester10() ensures Disjoint(Semester8Ids, Semester10Ids) {}
  lemma Semester8ApartElectiveFC() ensures Disjoint(Semester8Ids, ElectiveFCIds) {}
  lemma Semester8ApartElectiveIBC() ensures Disjoint(Semester8Ids, ElectiveIBCIds) {}
  lemma Semester8ApartElectiveDC() ensures Disjoint(Semester8Ids, ElectiveDCIds) {}
  lemma Semester8ApartElectiveDE() ensures Disjoint(Semester8Ids, ElectiveDEIds) {}
  lemma Semester9IdsDistinct() ensures NoDuplicates(Semester9Ids) {}
  lemma Semester9ApartSemester10() ensures Disjoint(Semester9Ids, Semester10Ids) {}
  lemma Semester9ApartElectiveFC() ensures Disjoint(Semester9Ids, ElectiveFCIds) {}
  lemma Semester9ApartElectiveIBC() ensures Disjoint(Semester9Ids, ElectiveIBCIds) {}
  lemma Semester9ApartElectiveDC() ensures Disjoint(Semester9Ids, ElectiveDCIds) {}
  lemma Semester9ApartElectiveDE() ensures Disjoint(Semester9Ids, ElectiveDEIds) {}
  lemma Semester10IdsDistinct() ensures NoDuplicates(Semester10Ids) {}
  lemma Semester10ApartElectiveFC() ensures Disjoint(Semester10Ids, ElectiveFCIds) {}
  lemma Semester10ApartElectiveIBC() ensures Disjoint(Semester10Ids, ElectiveIBCIds) {}
  lemma Semester10ApartElectiveDC() ensures Disjoint(Semester10Ids, ElectiveDCIds) {}
  lemma Semester10ApartElectiveDE() ensures Disjoint(Semester10Ids, ElectiveDEIds) {}
  lemma ElectiveFCIdsDistinct() ensures NoDuplicates(ElectiveFCIds) {}
  lemma ElectiveFCApartElectiveIBC() ensures Disjoint(ElectiveFCIds, ElectiveIBCIds) {}
  lemma ElectiveFCApartElectiveDC() ensures Disjoint(ElectiveFCIds, ElectiveDCIds) {}
  lemma ElectiveFCApartElectiveDE() ensures Disjoint(ElectiveFCIds, ElectiveDEIds) {}
  lemma ElectiveIBCIdsDistinct() ensures NoDuplicates(ElectiveIBCIds) {}
  lemma ElectiveIBCApartElectiveDC() ensures Disjoint(ElectiveIBCIds, ElectiveDCIds) {}
  lemma ElectiveIBCApartElectiveDE() ensures Disjoint(ElectiveIBCIds, ElectiveDEIds) {}
  lemma ElectiveDCIdsDistinct() ensures NoDuplicates(ElectiveDCIds) {}
  lemma ElectiveDCApartElectiveDE() ensures Disjoint(ElectiveDCIds, ElectiveDEIds) {}
  lemma ElectiveDEIdsDistinct() ensures NoDuplicates(ElectiveDEIds) {}
  /** The required credits of each block, in block order. */
  const RequiredCreditTable: seq<int> := [15, 16, 16, 14, 15, 12, 15, 12, 9, 9, 0, 0, 0, 0]

  // ---------------- the catalog as a whole ----------------

  lemma BlocksLinked()
    ensures LinkedBlocks(Blocks, IdTables)
  {
    Semester1IdsTable(); Semester1EntriesOk();
    Semester2IdsTable(); Semester2EntriesOk();
    Semester3IdsTable(); Semester3EntriesOk();
    Semester4IdsTable(); Semester4EntriesOk();
    Semester5IdsTable(); Semester5EntriesOk();
    Semester6IdsTable(); Semester6EntriesOk();
    Semester7IdsTable(); Semester7EntriesOk();
    Semester8IdsTable(); Semester8EntriesOk();
    Semester9IdsTable(); Semester9EntriesOk();
    Semester10IdsTable(); Semester10EntriesOk();
    ElectiveFCIdsTable(); ElectiveFCEntriesOk();
    ElectiveIBCIdsTable(); ElectiveIBCEntriesOk();
    ElectiveDCIdsTable(); ElectiveDCEntriesOk();
    ElectiveDEIdsTable(); ElectiveDEEntriesOk();
  }

  lemma IdTablesSeparate()
    ensures SeparateTables(IdTables)
  {
    Semester1IdsDistinct();
    Semester2IdsDistinct();
    Semester3IdsDistinct();
    Semester4IdsDistinct();
    Semester5IdsDistinct();
    Semester6IdsDistinct();
    Semester7IdsDistinct();
    Semester8IdsDistinct();
    Semester9IdsDistinct();
    Semester10IdsDistinct();
    ElectiveFCIdsDistinct();
    ElectiveIBCIdsDistinct();
    ElectiveDCIdsDistinct();
    ElectiveDEIdsDistinct();
    Semester1ApartSemester2(); Semester1ApartSemester3(); Semester1ApartSemester4(); Semester1ApartSemester5(); Semester1ApartSemester6(); Semester1ApartSemester7(); Semester1ApartSemester8(); Semester1ApartSemester9(); Semester1ApartSemester10(); Semester1ApartElectiveFC(); Semester1ApartElectiveIBC(); Semester1ApartElectiveDC(); Semester1ApartElectiveDE();
    Semester2ApartSemester3(); Semester2ApartSemester4(); Semester2ApartSemester5(); Semester2ApartSemester6(); Semester2ApartSemester7(); Semester2ApartSemester8(); Semester2ApartSemester9(); Semester2ApartSemester10(); Semester2ApartElectiveFC(); Semester2ApartElectiveIBC(); Semester2ApartElectiveDC(); Semester2ApartElectiveDE();
    Semester3ApartSemester4(); Semester3ApartSemester5(); Semester3ApartSemester6(); Semester3ApartSemester7(); Semester3ApartSemester8(); Semester3ApartSemester9(); Semester3ApartSemester10(); Semester3ApartElectiveFC(); Semester3ApartElectiveIBC(); Semester3ApartElectiveDC(); Semester3ApartElectiveDE();
    Semester4ApartSemester5(); Semester4ApartSemester6(); Semester4ApartSemester7(); Semester4ApartSemester8(); Semester4ApartSemester9(); Semester4ApartSemester10(); Semester4ApartElectiveFC(); Semester4ApartElectiveIBC(); Semester4ApartElectiveDC(); Semester4ApartElectiveDE();
    Semester5ApartSemester6(); Semester5ApartSemester7(); Semester5ApartSemester8(); Semester5ApartSemester9(); Semester5ApartSemester10(); Semester5ApartElectiveFC(); Semester5ApartElectiveIBC(); Semester5ApartElectiveDC(); Semester5ApartElectiveDE();
    Semester6ApartSemester7(); Semester6ApartSemester8(); Semester6ApartSemester9(); Semester6ApartSemester10(); Semester6ApartElectiveFC(); Semester6ApartElectiveIBC(); Semester6ApartElectiveDC(); Semester6ApartElectiveDE();
    Semester7ApartSemester8(); Semester7ApartSemester9(); Semester7ApartSemester10(); Semester7ApartElectiveFC(); Semester7ApartElectiveIBC(); Semester7ApartElectiveDC(); Semester7ApartElectiveDE();
    Semester8ApartSemester9(); Semester8ApartSemester10(); Semester8ApartElectiveFC(); Semester8ApartElectiveIBC(); Semester8ApartElectiveDC(); Semester8ApartElectiveDE();
    Semester9ApartSemester10(); Semester9ApartElectiveFC(); Semester9ApartElectiveIBC(); Semester9ApartElectiveDC(); Semester9ApartElectiveDE();
    Semester10ApartElectiveFC(); Semester10ApartElectiveIBC(); Semester10ApartElectiveDC(); Semester10ApartElectiveDE();
    ElectiveFCApartElectiveIBC(); ElectiveFCApartElectiveDC(); ElectiveFCApartElectiveDE();
    ElectiveIBCApartElectiveDC(); ElectiveIBCApartElectiveDE();
    ElectiveDCApartElectiveDE();
  }

  lemma BlocksRequiredCredits()
    ensures ListedBlocks(Blocks, RequiredCreditTable)
  {
    Semester1RequiredSum();
    Semester2RequiredSum();
    Semester3RequiredSum();
    Semester4RequiredSum();
    Semester5RequiredSum();
    Semester6RequiredSum();
    Semester7RequiredSum();
    Semester8RequiredSum();
    Semester9RequiredSum();
    Semester10RequiredSum();
    ElectiveFCKinds();
    ElectiveIBCKinds();
    ElectiveDCKinds();
    ElectiveDEKinds();
  }

  /** `DATA` is well formed: distinct ids, required courses in semesters 1-10, electives without a semester, no negative credits. */
  lemma DataWellFormed()
    ensures WellFormed(Data)
  {
    BlocksLinked();
    IdTablesSeparate();
    WellFormedFlatten(Blocks, IdTables);
  }

  /** The required courses of `DATA` add up to `TOTAL_OBLIGATORIOS_PLAN`, which with the elective cap makes `TOTAL_CREDITOS_PLAN`. */
  lemma DataRequiredCredits()
    ensures SumCredits(RequiredOf(Data)) == TotalRequiredCredits
    ensures TotalRequiredCredits + ElectiveCap == TotalPlanCredits
  {
    BlocksRequiredCredits();
    RequiredCreditsFlatten(Blocks, RequiredCreditTable);
    RequiredCreditTableSum();
  }

  lemma RequiredCreditTableSum()
    ensures SumInts(RequiredCreditTable) == TotalRequiredCredits
  {
  }
}
