/**
 The course catalog of the degree plan (`Curso`, `DATA` and the plan constants
 of src/CurriculumMap.tsx), the credit sum used throughout, and what it means
 for a catalog to be well formed.
 */
module Catalog {
  import opened Options
  import opened Seqs

  /** `TipoCurso`: "Obligatorio" (required) or "Electivo" (elective). */
  datatype Kind = Required | Elective

  /**
   `Curso`. A required course carries its fixed semester in `period`; an
   elective carries none, its semester lives in the assignment map.
   `prereqs` is informational and never enforced.
   */
  datatype Course = Course(
    id: string,
    code: string,
    title: string,
    credits: int,
    kind: Kind,
    category: string,
    period: Option<int>,
    prereqs: seq<string>)

  /** The string the source stores in `tipo`, which the kind filter compares against. */
  function KindName(k: Kind): string {
    match k
    case Required => "Obligatorio"
    case Elective => "Electivo"
  }

  /** `SEMESTRES`. */
  const Semesters: seq<int> := [1, 2, 3, 4, 5, 6, 7, 8, 9, 10]

  /** `TOTAL_CREDITOS_PLAN`. */
  const TotalPlanCredits: int := 160
  /** `TOTAL_OBLIGATORIOS_PLAN`. */
  const TotalRequiredCredits: int := 133
  /** `TOTAL_ELECTIVOS_PLAN`: the global cap on assigned elective credits. */
  const ElectiveCap: int := 27

  predicate IsRequired(c: Course) {
    c.kind == Required
  }

  predicate IsElective(c: Course) {
    c.kind == Elective
  }

  /** `obligatoriosBase`. */
  function RequiredOf(cat: seq<Course>): seq<Course> {
    Filter(cat, IsRequired)
  }

  /** `electivasBase`. */
  function ElectivesOf(cat: seq<Course>): seq<Course> {
    Filter(cat, IsElective)
  }

  /** `sumCreditos`: the total credits of a list of courses, never negative when no course's credits are. */
  function SumCredits(cs: seq<Course>): (r: int)
    ensures CreditsNonNegative(cs) ==> r >= 0
  {
    if |cs| == 0 then 0
    else
      assert CreditsNonNegative(cs) ==> CreditsNonNegative(cs[1..]) by {
        assert forall i :: 1 <= i < |cs| ==> cs[i] == cs[1..][i - 1];
      }
      cs[0].credits + SumCredits(cs[1..])
  }

  /** Every field a single catalog entry must get right. */
  predicate CourseOk(c: Course) {
    && c.id != ""
    && c.credits >= 0
    && (c.kind == Required ==> c.period.Some? && c.period.value in Semesters)
    && (c.kind == Elective ==> c.period.None?)
  }

  predicate DistinctIds(cs: seq<Course>) {
    forall i, j :: 0 <= i < j < |cs| ==> cs[i].id != cs[j].id
  }

  /**
   What the component silently relies on: ids are non-empty and identify
   courses (the select uses the empty id for "nothing chosen"), every required
   course sits in one of the ten semesters (the non-null lookups in
   `porSemestre`), no elective has a fixed semester, and no credit count is
   negative.
   */
  predicate WellFormed(cat: seq<Course>) {
    && DistinctIds(cat)
    && forall i :: 0 <= i < |cat| ==> CourseOk(cat[i])
  }

  predicate CreditsNonNegative(cs: seq<Course>) {
    forall i :: 0 <= i < |cs| ==> cs[i].credits >= 0
  }

  lemma {:induction false} SumConcat(a: seq<Course>, b: seq<Course>)
    ensures SumCredits(a + b) == SumCredits(a) + SumCredits(b)
  {
    if |a| > 0 {
      assert (a + b)[1..] == a[1..] + b;
      SumConcat(a[1..], b);
    } else {
      assert a + b == b;
    }
  }

  // ---------------- DATA ----------------

  /** Semester 1, required courses. */
  const Semester1: seq<Course> := [
    Course("503438689", "503438689", "Elementary English", 3, Required, "DE", Some(1), []),
    Course("503438688", "503438688", "Introducción a la Licenciatura en Lenguas Extranjeras con énfasis en Inglés", 3, Required, "DE", Some(1), []),
    Course("80017", "80017", "Cátedra Unadista", 3, Required, "Acogida/Integración", Some(1), []),
    Course("40003", "40003", "Competencias Comunicativas", 3, Required, "IBC", Some(1), []),
    Course("40002", "40002", "Ética y ciudadanía", 3, Required, "IBC", Some(1), [])
  ]

  /** Semester 2, required courses. */
  const Semester2: seq<Course> := [
    Course("518002", "518002", "English I", 3, Required, "DE", Some(2), []),
    Course("520027", "520027", "Epistemología e historia de la pedagogía", 4, Required, "DC", Some(2), []),
    Course("700004", "700004", "Prestación servicio social unadista (Requisito de grado)", 0, Required, "Requisito de grado", Some(2), []),
    Course("517031", "517031", "Matemáticas para la Resolución de Problemas", 3, Required, "DC", Some(2), []),
    Course("200611", "200611", "Pensamiento Lógico y Matemático", 3, Required, "IBC", Some(2), []),
    Course("200610", "200610", "Herramientas digitales para la gestión del conocimiento", 3, Required, "IBC", Some(2), [])
  ]

  /** Semester 3, required courses. */
  const Semester3: seq<Course> := [
    Course("518007", "518007", "English II", 3, Required, "DE", Some(3), ["518002"]),
    Course("517022", "517022", "Teorías del Aprendizaje", 3, Required, "DC", Some(3), []),
    Course("150001", "150001", "Fundamentos y Generalidades de la Investigación", 3, Required, "IBC", Some(3), []),
    Course("503438691", "503438691", "Introduction to Linguistics", 3, Required, "DE", Some(3), []),
    Course("518015", "518015", "Foreign Language Acquisition and Learning", 2, Required, "DE", Some(3), []),
    Course("518003", "518003", "Lengua Materna", 2, Required, "DE", Some(3), [])
  ]

  /** Semester 4, required courses. */
  const Semester4: seq<Course> := [
    Course("518008", "518008", "English III", 3, Required, "DE", Some(4), ["518007"]),
    Course("520026", "520026", "Evaluación", 3, Required, "DC", Some(4), []),
    Course("517020", "517020", "Didáctica", 3, Required, "DC", Some(4), []),
    Course("518014", "518014", "English Phonetics", 2, Required, "DE", Some(4), []),
    Course("520025", "520025", "Ética de la Profesión Docente", 3, Required, "DC", Some(4), [])
  ]

  /** Semester 5, required courses. */
  const Semester5: seq<Course> := [
    Course("518009", "518009", "English IV", 3, Required, "DE", Some(5), ["518008"]),
    Course("517021", "517021", "Enfoques Curriculares", 3, Required, "DC", Some(5), []),
    Course("518005", "518005", "Methodology in Foreign Language Teaching", 3, Required, "DE", Some(5), []),
    Course("503438690", "503438690", "Didactics of English", 3, Required, "DE", Some(5), []),
    Course("500001", "500001", "Administración y Gestión Educativas", 3, Required, "DC", Some(5), [])
  ]

  /** Semester 6, required courses. */
  const Semester6: seq<Course> := [
    Course("518010", "518010", "English V", 3, Required, "DE", Some(6), ["518009"]),
    Course("517027", "517027", "Educación para la Transformación Social", 3, Required, "DC", Some(6), []),
    Course("518004", "518004", "Teaching English to Children, Adolescents and Adults", 3, Required, "DE", Some(6), []),
    Course("503438692", "503438692", "Materials Design in EFL", 3, Required, "DE", Some(6), [])
  ]

  /** Semester 7, required courses. */
  const Semester7: seq<Course> := [
    Course("518011", "518011", "English VI", 3, Required, "DE", Some(7), ["518010"]),
    Course("517028", "517028", "Escenarios Educativos Inclusivos", 3, Required, "DC", Some(7), []),
    Course("518006", "518006", "Technology in Foreign Language Teaching", 3, Required, "DE", Some(7), []),
    Course("503438693", "503438693", "Intercultural Competence in ELT", 3, Required, "DE", Some(7), []),
    Course("518023", "518023", "Testing and Evaluation in ELT", 3, Required, "DE", Some(7), [])
  ]

  /** Semester 8, required courses. */
  const Semester8: seq<Course> := [
    Course("518012", "518012", "English VII - English Conversation", 3, Required, "DE", Some(8), ["518011"]),
    Course("517023", "517023", "Investigación Educativa y Pedagógica", 3, Required, "DC", Some(8), []),
    Course("518018", "518018", "Integral Pedagogical Practice", 3, Required, "DE", Some(8), []),
    Course("518021", "518021", "Teacher Development", 3, Required, "DE", Some(8), [])
  ]

  /** Semester 9, required courses. */
  const Semester9: seq<Course> := [
    Course("503438694", "503438694", "English VIII - Academic Writing", 3, Required, "DE", Some(9), []),
    Course("518024", "518024", "Educational Research", 3, Required, "DE", Some(9), []),
    Course("518019", "518019", "Research Pedagogical Practice", 3, Required, "DE", Some(9), [])
  ]

  /** Semester 10, required courses. */
  const Semester10: seq<Course> := [
    Course("517018_TIC", "517018", "Prácticas educativas mediadas por TIC", 3, Required, "DC", Some(10), []),
    Course("503438695", "503438695", "Research Project", 3, Required, "DE", Some(10), ["518024"]),
    Course("518020", "518020", "Pedagogical Practice in Online Environments", 3, Required, "DE", Some(10), []),
    Course("OPCGRADO", "OPC", "Opción de Grado (Requisito)", 0, Required, "Requisito de grado", Some(10), [])
  ]

  /** Electives of the FC pool. */
  const ElectiveFC: seq<Course> := [
    Course("300040", "300040", "Hoja de Vida", 1, Elective, "FC", None, []),
    Course("80003", "80003", "Salud Oral", 2, Elective, "FC", None, []),
    Course("80005", "80005", "Guitarra", 1, Elective, "FC", None, []),
    Course("80008", "80008", "Pedagogía para la Solución de Conflictos", 2, Elective, "FC", None, []),
    Course("80011", "80011", "Discapacidad y Sexualidad", 2, Elective, "FC", None, []),
    Course("80002", "80002", "Proyecto de Vida", 2, Elective, "FC", None, []),
    Course("80004", "80004", "La Persona como Ser Trascendente", 2, Elective, "FC", None, []),
    Course("80007", "80007", "Protocolo", 1, Elective, "FC", None, []),
    Course("80010", "80010", "Teatro", 1, Elective, "FC", None, []),
    Course("80012", "80012", "Danza", 2, Elective, "FC", None, [])
  ]

  /** Electives of the IBC pool. */
  const ElectiveIBC: seq<Course> := [
    Course("ELE_A1", "ELE-A1", "Curso Electivo de Lengua Extranjera A1", 3, Elective, "IBC", None, []),
    Course("ELE_A2", "ELE-A2", "Curso Electivo de Lengua Extranjera A2", 3, Elective, "IBC", None, []),
    Course("40004", "40004", "Inclusión Social", 3, Elective, "IBC", None, []),
    Course("40006", "40006", "Sostenibilidad, Desarrollo y Calidad de Vida", 3, Elective, "IBC", None, []),
    Course("90007", "90007", "Cultura Política", 2, Elective, "IBC", None, []),
    Course("105020", "105020", "Emprendimiento Solidario", 3, Elective, "IBC", None, []),
    Course("204040", "204040", "Estadística Descriptiva", 3, Elective, "IBC", None, []),
    Course("40005", "40005", "Sujeto, Comunidad e Interacción Social", 3, Elective, "IBC", None, []),
    Course("358028", "358028", "Educación Ambiental", 3, Elective, "IBC", None, []),
    Course("112001", "112001", "Fundamentos de Gestión Integral", 3, Elective, "IBC", None, []),
    Course("120002", "120002", "Responsabilidad Social Empresarial", 3, Elective, "IBC", None, []),
    Course("105019", "105019", "Investigación Cualitativa", 3, Elective, "IBC", None, [])
  ]

  /** Electives of the DC pool. */
  const ElectiveDC: seq<Course> := [
    Course("50003", "50003", "Diseño de Ambientes de Aprendizaje", 3, Elective, "DC", None, []),
    Course("50017", "50017", "Comunicación Escrita", 2, Elective, "DC", None, []),
    Course("50020", "50020", "Razonamiento Cuantitativo", 2, Elective, "DC", None, []),
    Course("514520", "514520", "Desarrollo Psicobiológico de la Infancia y la Adolescencia", 3, Elective, "DC", None, []),
    Course("518025", "518025", "Modelos Pedagógicos", 3, Elective, "DC", None, []),
    Course("520024", "520024", "Legislación Educativa", 3, Elective, "DC", None, []),
    Course("50011", "50011", "Educación Inclusiva en Ambientes de Aprendizaje", 3, Elective, "DC", None, []),
    Course("50018", "50018", "Competencias Ciudadanas", 2, Elective, "DC", None, []),
    Course("401432", "401432", "Etnografía", 3, Elective, "DC", None, []),
    Course("514521", "514521", "Innovación e Investigación en Educación", 3, Elective, "DC", None, []),
    Course("520028", "520028", "Pensamiento Crítico y Ciudadanía", 3, Elective, "DC", None, []),
    Course("511001", "511001", "Latex", 3, Elective, "DC", None, []),
    Course("50016", "50016", "Competencias Comunicativas Docentes", 2, Elective, "DC", None, []),
    Course("50019", "50019", "Lectura Crítica", 2, Elective, "DC", None, []),
    Course("514519", "514519", "Lectura y Escritura Académicas", 3, Elective, "DC", None, []),
    Course("517032", "517032", "Pedagogía Social Solidaria", 3, Elective, "DC", None, []),
    Course("712003", "712003", "Resiliencia", 3, Elective, "DC", None, [])
  ]

  /** Electives of the DE pool. */
  const ElectiveDE: seq<Course> := [
    Course("ELE_B1", "ELE-B1", "Curso Electivo de Lengua Extranjera B1", 3, Elective, "DE", None, []),
    Course("ELE_B1P", "ELE-B1+", "Curso Electivo de Lengua Extranjera B1+", 3, Elective, "DE", None, []),
    Course("551002_E", "551002", "Lengua Materna II", 2, Elective, "DE", None, []),
    Course("551030", "551030", "Educational Management", 2, Elective, "DE", None, []),
    Course("551033", "551033", "Didactics of Science", 3, Elective, "DE", None, []),
    Course("551036", "551036", "Language and Culture", 2, Elective, "DE", None, []),
    Course("450073", "450073", "English Composition I", 2, Elective, "DE", None, []),
    Course("551029", "551029", "English Literature", 2, Elective, "DE", None, []),
    Course("551032", "551032", "Didactics of Mathematics", 3, Elective, "DE", None, []),
    Course("503438696", "503438696", "Educational Governance in a Global Context", 3, Elective, "DE", None, []),
    Course("551038", "551038", "Teaching English for Specific Purposes", 3, Elective, "DE", None, []),
    Course("551031", "551031", "Qualitative and Quantitative Research", 2, Elective, "DE", None, []),
    Course("503438697", "503438697", "Foundations of Bilingual Education", 3, Elective, "DE", None, []),
    Course("551037", "551037", "Translation Techniques", 2, Elective, "DE", None, []),
    Course("450058", "450058", "English Composition II", 3, Elective, "DE", None, [])
  ]

  /** The catalog as the source writes it, block by block: one block per semester, then one per elective pool. */
  const Blocks: seq<seq<Course>> := [
    Semester1, Semester2, Semester3, Semester4, Semester5,
    Semester6, Semester7, Semester8, Semester9, Semester10,
    ElectiveFC, ElectiveIBC, ElectiveDC, ElectiveDE
  ]

  /** `DATA`: the whole catalog, in source order. */
  const Data: seq<Course> := Flatten(Blocks)
}
