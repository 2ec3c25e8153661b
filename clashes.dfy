/**
 * The clash constraints of the complete encoder (complete_encode.py,
 * `curriculum_clashes`, `teacher_clashes`, `room_clashes_basic`,
 * `room_clashes_complete`, `time_slot_availability`).  The first four forbid,
 * for every pair i < j of a course list, that both courses occupy the same
 * cell: a slot (curricula, teachers), a slot and a room through `ch` and `cr`
 * (section 3 rooms) or a slot and a room through `chr` (section 4.4 rooms).
 */
module Clashes {
  import opened Seqs
  import opened Timetabling
  import opened Variables
  import opened Literals

  /** The dictionaries the clash generators read. */
  datatype Dicts = Dicts(ch: VarMap, cr: VarMap, chr: VarMap)

  ghost predicate PositiveDicts(t: Dicts) {
    Positive(t.ch) && Positive(t.cr) && Positive(t.chr)
  }

  /** What two clashing courses would share. */
  datatype Cell =
    | Together(h: int)            // the slot h
    | SameRoom(h: int, r: RoomId) // the slot h and the room r, as ch and cr variables
    | SameChr(h: int, r: RoomId)  // the slot h and the room r, as one chr variable

  /** The clause forbidding courses c and c' to share the cell, when all its variables exist. */
  function Clash(t: Dicts, cell: Cell, c: CourseId, c': CourseId): seq<Clause> {
    match cell
    case Together(h) =>
      if Ch(c, h) in t.ch.ids && Ch(c', h) in t.ch.ids
      then [[-t.ch.ids[Ch(c, h)], -t.ch.ids[Ch(c', h)]]] else []
    case SameRoom(h, r) =>
      if Ch(c, h) in t.ch.ids && Ch(c', h) in t.ch.ids && Cr(c, r) in t.cr.ids && Cr(c', r) in t.cr.ids
      then [[-t.ch.ids[Ch(c, h)], -t.ch.ids[Ch(c', h)], -t.cr.ids[Cr(c, r)], -t.cr.ids[Cr(c', r)]]] else []
    case SameChr(h, r) =>
      if Chr(c, h, r) in t.chr.ids && Chr(c', h, r) in t.chr.ids
      then [[-t.chr.ids[Chr(c, h, r)], -t.chr.ids[Chr(c', h, r)]]] else []
  }

  /** Course c occupies the cell under assignment `a`: its variables exist and are true. */
  ghost predicate Occupies(a: set<int>, t: Dicts, cell: Cell, c: CourseId) {
    match cell
    case Together(h) => Ch(c, h) in t.ch.ids && t.ch.ids[Ch(c, h)] in a
    case SameRoom(h, r) =>
      Ch(c, h) in t.ch.ids && t.ch.ids[Ch(c, h)] in a && Cr(c, r) in t.cr.ids && t.cr.ids[Cr(c, r)] in a
    case SameChr(h, r) => Chr(c, h, r) in t.chr.ids && t.chr.ids[Chr(c, h, r)] in a
  }

  /** The inner loop: the clashes of cs[i] with cs[j] for i < j < n. */
  function PairRow(t: Dicts, cell: Cell, cs: seq<CourseId>, i: nat, n: nat): seq<Clause>
    requires n <= |cs|
  {
    if n <= i + 1 then [] else PairRow(t, cell, cs, i, n - 1) + Clash(t, cell, cs[i], cs[n - 1])
  }

  /** The two inner loops, i < m. */
  function PairsUpTo(t: Dicts, cell: Cell, cs: seq<CourseId>, m: nat): seq<Clause>
    requires m <= |cs|
  {
    if m == 0 then [] else PairsUpTo(t, cell, cs, m - 1) + PairRow(t, cell, cs, m - 1, |cs|)
  }

  /** The clashes of every pair i < j of `cs` in one cell. */
  function Pairs(t: Dicts, cell: Cell, cs: seq<CourseId>): seq<Clause> {
    PairsUpTo(t, cell, cs, |cs|)
  }

  /** `for i in range(len(cs)): for j in range(i + 1, len(cs)): ...` for one cell. */
  method ClashPairs(t: Dicts, cell: Cell, cs: seq<CourseId>) returns (cls: seq<Clause>)
    ensures cls == Pairs(t, cell, cs)
  {
    cls := [];
    for i := 0 to |cs|
      invariant cls == PairsUpTo(t, cell, cs, i)
    {
      var row := ClashRow(t, cell, cs, i);
      PairsUpToUnfold(t, cell, cs, i + 1);
      cls := cls + row;
    }
  }

  lemma PairsUpToUnfold(t: Dicts, cell: Cell, cs: seq<CourseId>, m: nat)
    requires 0 < m <= |cs|
    ensures PairsUpTo(t, cell, cs, m) == PairsUpTo(t, cell, cs, m - 1) + PairRow(t, cell, cs, m - 1, |cs|)
  {
  }

  /** The inner loop: course i against every later course of `cs`. */
  method ClashRow(t: Dicts, cell: Cell, cs: seq<CourseId>, i: nat) returns (row: seq<Clause>)
    requires i < |cs|
    ensures row == PairRow(t, cell, cs, i, |cs|)
  {
    row := [];
    for j := i + 1 to |cs|
      invariant row == PairRow(t, cell, cs, i, j)
    {
      row := row + Clash(t, cell, cs[i], cs[j]);
    }
  }

  /** A clash clause is satisfied exactly when the two courses do not both occupy the cell. */
  lemma ClashMeaning(a: set<int>, t: Dicts, cell: Cell, c: CourseId, c': CourseId)
    requires PositiveDicts(t)
    ensures Sat(a, Clash(t, cell, c, c')) <==> !(Occupies(a, t, cell, c) && Occupies(a, t, cell, c'))
  {
    match cell
    case Together(h) =>
      if Ch(c, h) in t.ch.ids && Ch(c', h) in t.ch.ids {
        NandMeaning(a, t.ch.ids[Ch(c, h)], t.ch.ids[Ch(c', h)]);
      }
    case SameRoom(h, r) =>
      if Ch(c, h) in t.ch.ids && Ch(c', h) in t.ch.ids && Cr(c, r) in t.cr.ids && Cr(c', r) in t.cr.ids {
        Nand4Meaning(a, t.ch.ids[Ch(c, h)], t.ch.ids[Ch(c', h)], t.cr.ids[Cr(c, r)], t.cr.ids[Cr(c', r)]);
      }
    case SameChr(h, r) =>
      if Chr(c, h, r) in t.chr.ids && Chr(c', h, r) in t.chr.ids {
        NandMeaning(a, t.chr.ids[Chr(c, h, r)], t.chr.ids[Chr(c', h, r)]);
      }
  }

  lemma {:induction false} PairRowMeaning(a: set<int>, t: Dicts, cell: Cell, cs: seq<CourseId>, i: nat, n: nat)
    requires PositiveDicts(t) && n <= |cs|
    ensures Sat(a, PairRow(t, cell, cs, i, n)) <==> RowApart(a, t, cell, cs, i, n)
  {
    if n > i + 1 {
      PairRowMeaning(a, t, cell, cs, i, n - 1);
      ClashMeaning(a, t, cell, cs[i], cs[n - 1]);
      SatAppend(a, PairRow(t, cell, cs, i, n - 1), Clash(t, cell, cs[i], cs[n - 1]));
    }
  }

  /** Course i of `cs` does not share the cell with any later course below position n
      (stated step by step, as the row's clauses are built; `RowApartMeaning` quantifies it). */
  ghost predicate RowApart(a: set<int>, t: Dicts, cell: Cell, cs: seq<CourseId>, i: nat, n: nat)
    requires n <= |cs|
  {
    n <= i + 1 || (RowApart(a, t, cell, cs, i, n - 1) && !(Occupies(a, t, cell, cs[i]) && Occupies(a, t, cell, cs[n - 1])))
  }

  lemma {:induction false} RowApartMeaning(a: set<int>, t: Dicts, cell: Cell, cs: seq<CourseId>, i: nat, n: nat)
    requires n <= |cs|
    ensures RowApart(a, t, cell, cs, i, n) <==> forall j :: i < j < n ==> !(Occupies(a, t, cell, cs[i]) && Occupies(a, t, cell, cs[j]))
  {
    if n > i + 1 {
      RowApartMeaning(a, t, cell, cs, i, n - 1);
    }
  }

  /** No course among the first m shares the cell with a later course of `cs`
      (step by step; `ApartUpToMeaning` quantifies it). */
  ghost predicate ApartUpTo(a: set<int>, t: Dicts, cell: Cell, cs: seq<CourseId>, m: nat)
    requires m <= |cs|
  {
    m == 0 || (ApartUpTo(a, t, cell, cs, m - 1) && RowApart(a, t, cell, cs, m - 1, |cs|))
  }

  lemma {:induction false} ApartUpToMeaning(a: set<int>, t: Dicts, cell: Cell, cs: seq<CourseId>, m: nat)
    requires m <= |cs|
    ensures ApartUpTo(a, t, cell, cs, m)
        <==> forall i, j :: 0 <= i < m && i < j < |cs| ==> !(Occupies(a, t, cell, cs[i]) && Occupies(a, t, cell, cs[j]))
  {
    if m > 0 {
      ApartUpToMeaning(a, t, cell, cs, m - 1);
      RowApartMeaning(a, t, cell, cs, m - 1, |cs|);
    }
  }

  lemma PairsUpToSplit(a: set<int>, t: Dicts, cell: Cell, cs: seq<CourseId>, m: nat)
    requires 0 < m <= |cs|
    ensures Sat(a, PairsUpTo(t, cell, cs, m)) <==> Sat(a, PairsUpTo(t, cell, cs, m - 1)) && Sat(a, PairRow(t, cell, cs, m - 1, |cs|))
  {
    SatAppend(a, PairsUpTo(t, cell, cs, m - 1), PairRow(t, cell, cs, m - 1, |cs|));
  }

  /** The step of `PairsUpToApart`, with the satisfaction facts as plain booleans. */
  lemma ApartUpToStep(a: set<int>, t: Dicts, cell: Cell, cs: seq<CourseId>, m: nat, whole: bool, prev: bool, row: bool)
    requires 0 < m <= |cs|
    requires whole <==> prev && row
    requires prev <==> ApartUpTo(a, t, cell, cs, m - 1)
    requires row <==> RowApart(a, t, cell, cs, m - 1, |cs|)
    ensures whole <==> ApartUpTo(a, t, cell, cs, m)
  {
  }

  lemma {:induction false} PairsUpToApart(a: set<int>, t: Dicts, cell: Cell, cs: seq<CourseId>, m: nat)
    requires PositiveDicts(t) && m <= |cs|
    ensures Sat(a, PairsUpTo(t, cell, cs, m)) <==> ApartUpTo(a, t, cell, cs, m)
  {
    if m > 0 {
      var whole, prev, row := Sat(a, PairsUpTo(t, cell, cs, m)), Sat(a, PairsUpTo(t, cell, cs, m - 1)), Sat(a, PairRow(t, cell, cs, m - 1, |cs|));
      assert whole <==> prev && row by {
        PairsUpToSplit(a, t, cell, cs, m);
      }
      assert prev <==> ApartUpTo(a, t, cell, cs, m - 1) by {
        PairsUpToApart(a, t, cell, cs, m - 1);
      }
      assert row <==> RowApart(a, t, cell, cs, m - 1, |cs|) by {
        PairRowMeaning(a, t, cell, cs, m - 1, |cs|);
      }
      ApartUpToStep(a, t, cell, cs, m, whole, prev, row);
    }
  }

  lemma PairsUpToMeaning(a: set<int>, t: Dicts, cell: Cell, cs: seq<CourseId>, m: nat)
    requires PositiveDicts(t) && m <= |cs|
    ensures Sat(a, PairsUpTo(t, cell, cs, m))
        <==> (forall i, j :: 0 <= i < m && i < j < |cs| ==> !(Occupies(a, t, cell, cs[i]) && Occupies(a, t, cell, cs[j])))
  {
    PairsUpToApart(a, t, cell, cs, m);
    ApartUpToMeaning(a, t, cell, cs, m);
  }

  /** The pair clauses of a cell are satisfied exactly when at most one course of `cs`
      (counted by position) occupies the cell. */
  lemma PairsMeaning(a: set<int>, t: Dicts, cell: Cell, cs: seq<CourseId>)
    requires PositiveDicts(t)
    ensures Sat(a, Pairs(t, cell, cs))
        <==> (forall i, j :: 0 <= i < j < |cs| ==> !(Occupies(a, t, cell, cs[i]) && Occupies(a, t, cell, cs[j])))
  {
    PairsUpToMeaning(a, t, cell, cs, |cs|);
  }

  /** A list of fewer than two courses has no pair, hence no clause. */
  lemma {:induction false} PairsShort(t: Dicts, cell: Cell, cs: seq<CourseId>, m: nat)
    requires m <= |cs| < 2
    ensures PairsUpTo(t, cell, cs, m) == []
  {
    if m > 0 {
      PairsShort(t, cell, cs, m - 1);
    }
  }

  // ---------------------------------------------------------------------
  // curriculum_clashes and teacher_clashes: a group of courses, slot by slot

  /** The slot loop for one group of courses: slots 0 .. n-1. */
  function GroupClashes(ch: VarMap, cs: seq<CourseId>, n: nat): seq<Clause> {
    if n == 0 then [] else GroupClashes(ch, cs, n - 1) + Pairs(Dicts(ch, VarMap([], map[]), VarMap([], map[])), Together(n - 1), cs)
  }

  lemma {:induction false} GroupClashesShort(ch: VarMap, cs: seq<CourseId>, n: nat)
    requires |cs| < 2
    ensures GroupClashes(ch, cs, n) == []
  {
    if n > 0 {
      GroupClashesShort(ch, cs, n - 1);
      PairsShort(Dicts(ch, VarMap([], map[]), VarMap([], map[])), Together(n - 1), cs, |cs|);
    }
  }

  /** One group: skipped below two courses, else the slot loop over the pair loops. */
  method ClashGroup(ch: VarMap, cs: seq<CourseId>, n: nat) returns (cls: seq<Clause>)
    ensures cls == GroupClashes(ch, cs, n)
  {
    cls := [];
    if |cs| < 2 {
      GroupClashesShort(ch, cs, n);
      return;
    }
    var h := 0;
    while h < n
      invariant 0 <= h <= n
      invariant cls == GroupClashes(ch, cs, h)
    {
      var block := ClashPairs(Dicts(ch, VarMap([], map[]), VarMap([], map[])), Together(h), cs);
      cls := cls + block;
      h := h + 1;
    }
  }

  /** Course c is taught in slot h under `a`. */
  ghost predicate Taught(a: set<int>, ch: VarMap, c: CourseId, h: int) {
    Ch(c, h) in ch.ids && ch.ids[Ch(c, h)] in a
  }

  /** A group's clauses are satisfied exactly when no two of its courses (by position) are taught
      in a common slot below n. */
  lemma {:induction false} GroupClashesMeaning(a: set<int>, ch: VarMap, cs: seq<CourseId>, n: nat)
    requires Positive(ch)
    ensures Sat(a, GroupClashes(ch, cs, n))
        <==> (forall h, i, j :: 0 <= h < n && 0 <= i < j < |cs| ==> !(Taught(a, ch, cs[i], h) && Taught(a, ch, cs[j], h)))
  {
    if n > 0 {
      var t := Dicts(ch, VarMap([], map[]), VarMap([], map[]));
      GroupClashesMeaning(a, ch, cs, n - 1);
      PairsMeaning(a, t, Together(n - 1), cs);
      assert forall c {:trigger Occupies(a, t, Together(n - 1), c)} :: Occupies(a, t, Together(n - 1), c) <==> Taught(a, ch, c, n - 1);
      SatAppend(a, GroupClashes(ch, cs, n - 1), Pairs(t, Together(n - 1), cs));
    }
  }

  /** The clause list of `curriculum_clashes`: the curricula in the order `kids`. */
  function CurriculumClashesClauses(ch: VarMap, kids: seq<CurriculumId>, curricula: map<CurriculumId, Curriculum>, n: nat): seq<Clause>
    requires forall k :: k in kids ==> k in curricula
  {
    if kids == [] then []
    else CurriculumClashesClauses(ch, kids[..|kids| - 1], curricula, n) + GroupClashes(ch, curricula[kids[|kids| - 1]].courses, n)
  }

  /** complete_encode.py `curriculum_clashes`. */
  method CurriculumClashes(ch: VarMap, kids: seq<CurriculumId>, curricula: map<CurriculumId, Curriculum>, n: nat)
    returns (clauses: seq<Clause>)
    requires forall k :: k in kids ==> k in curricula
    ensures clauses == CurriculumClashesClauses(ch, kids, curricula, n)
  {
    clauses := [];
    var i := 0;
    while i < |kids|
      invariant 0 <= i <= |kids|
      invariant clauses == CurriculumClashesClauses(ch, kids[..i], curricula, n)
    {
      assert kids[..i + 1][..i] == kids[..i];
      var block := ClashGroup(ch, curricula[kids[i]].courses, n);
      clauses := clauses + block;
      i := i + 1;
    }
    assert kids[..i] == kids;
  }

  /** An assignment satisfies `curriculum_clashes` exactly when no two courses of one curriculum
      are taught in a common slot below n. */
  lemma {:induction false} CurriculumClashesMeaning(a: set<int>, ch: VarMap, kids: seq<CurriculumId>,
                                                    curricula: map<CurriculumId, Curriculum>, n: nat)
    requires Positive(ch) && forall k :: k in kids ==> k in curricula
    ensures Sat(a, CurriculumClashesClauses(ch, kids, curricula, n))
        <==> (forall k, h, i, j :: k in kids && 0 <= h < n && 0 <= i < j < |curricula[k].courses|
                ==> !(Taught(a, ch, curricula[k].courses[i], h) && Taught(a, ch, curricula[k].courses[j], h)))
  {
    if kids != [] {
      var init, k := kids[..|kids| - 1], kids[|kids| - 1];
      assert forall x :: x in init ==> x in kids;
      assert kids == init + [k];
      CurriculumClashesMeaning(a, ch, init, curricula, n);
      GroupClashesMeaning(a, ch, curricula[k].courses, n);
      SatAppend(a, CurriculumClashesClauses(ch, init, curricula, n), GroupClashes(ch, curricula[k].courses, n));
    }
  }

  /** The teacher loop over the groups of `map_teacher`, teachers `ts` in order. */
  function TeacherGroupsClauses(ch: VarMap, ts: seq<TeacherId>, courseIds: seq<CourseId>, courses: map<CourseId, Course>, n: nat): seq<Clause>
    requires forall c :: c in courseIds ==> c in courses
  {
    if ts == [] then []
    else TeacherGroupsClauses(ch, ts[..|ts| - 1], courseIds, courses, n) + GroupClashes(ch, Group(courseIds, courses, ts[|ts| - 1]), n)
  }

  /** The clause list of `teacher_clashes`. */
  function TeacherClashesClauses(ch: VarMap, courseIds: seq<CourseId>, courses: map<CourseId, Course>, n: nat): seq<Clause>
    requires forall c :: c in courseIds ==> c in courses
  {
    TeacherGroupsClauses(ch, TeacherOrder(courseIds, courses), courseIds, courses, n)
  }

  /** complete_encode.py `teacher_clashes`: the courses dictionary is `courseIds` with `courses`. */
  method TeacherClashes(courseIds: seq<CourseId>, courses: map<CourseId, Course>, ch: VarMap, n: nat)
    returns (clauses: seq<Clause>)
    requires forall c :: c in courseIds ==> c in courses
    ensures clauses == TeacherClashesClauses(ch, courseIds, courses, n)
  {
    var tm := MapTeacher(courseIds, courses);
    clauses := [];
    for i := 0 to |tm.teachers|
      invariant clauses == TeacherGroupsClauses(ch, tm.teachers[..i], courseIds, courses, n)
    {
      var t := tm.teachers[i];
      var block := ClashGroup(ch, tm.groups[t], n);
      TeacherGroupsUnfold(ch, tm.teachers, courseIds, courses, n, i);
      clauses := clauses + block;
    }
    assert tm.teachers[..|tm.teachers|] == tm.teachers;
  }

  lemma TeacherGroupsUnfold(ch: VarMap, ts: seq<TeacherId>, courseIds: seq<CourseId>, courses: map<CourseId, Course>, n: nat, i: nat)
    requires i < |ts| && forall c :: c in courseIds ==> c in courses
    ensures TeacherGroupsClauses(ch, ts[..i + 1], courseIds, courses, n)
         == TeacherGroupsClauses(ch, ts[..i], courseIds, courses, n) + GroupClashes(ch, Group(courseIds, courses, ts[i]), n)
  {
    assert ts[..i + 1][..i] == ts[..i];
  }

  lemma {:induction false} TeacherGroupsMeaning(a: set<int>, ch: VarMap, ts: seq<TeacherId>, courseIds: seq<CourseId>,
                                                courses: map<CourseId, Course>, n: nat)
    requires Positive(ch) && Distinct(courseIds) && forall c :: c in courseIds ==> c in courses
    ensures Sat(a, TeacherGroupsClauses(ch, ts, courseIds, courses, n))
        <==> (forall c, c', h :: (c in courseIds && c' in courseIds && c != c' && courses[c].teacher in ts
                                  && courses[c'].teacher == courses[c].teacher && 0 <= h < n)
                                 ==> !(Taught(a, ch, c, h) && Taught(a, ch, c', h)))
  {
    if ts != [] {
      var init, t := ts[..|ts| - 1], ts[|ts| - 1];
      assert ts == init + [t];
      TeacherGroupsMeaning(a, ch, init, courseIds, courses, n);
      var g := Group(courseIds, courses, t);
      GroupClashesMeaning(a, ch, g, n);
      GroupMembers(courseIds, courses, t);
      GroupDistinct(courseIds, courses, t);
      SatAppend(a, TeacherGroupsClauses(ch, init, courseIds, courses, n), GroupClashes(ch, g, n));
      GroupPairs(a, ch, g, n);
    }
  }

  /** For a duplicate-free group, "no two positions taught together" is "no two different members
      taught together". */
  lemma GroupPairs(a: set<int>, ch: VarMap, g: seq<CourseId>, n: nat)
    requires Distinct(g)
    ensures (forall h, i, j :: 0 <= h < n && 0 <= i < j < |g| ==> !(Taught(a, ch, g[i], h) && Taught(a, ch, g[j], h)))
        <==> (forall c, c', h :: c in g && c' in g && c != c' && 0 <= h < n ==> !(Taught(a, ch, c, h) && Taught(a, ch, c', h)))
  {
    if forall h, i, j :: 0 <= h < n && 0 <= i < j < |g| ==> !(Taught(a, ch, g[i], h) && Taught(a, ch, g[j], h)) {
      forall c, c', h | c in g && c' in g && c != c' && 0 <= h < n
        ensures !(Taught(a, ch, c, h) && Taught(a, ch, c', h))
      {
        var i :| 0 <= i < |g| && g[i] == c;
        var j :| 0 <= j < |g| && g[j] == c';
        if i > j {
          assert !(Taught(a, ch, g[j], h) && Taught(a, ch, g[i], h));
        }
      }
    }
  }

  /** An assignment satisfies `teacher_clashes` exactly when no two different courses of one
      teacher are taught in a common slot below n. */
  lemma TeacherClashesMeaning(a: set<int>, ch: VarMap, courseIds: seq<CourseId>, courses: map<CourseId, Course>, n: nat)
    requires Positive(ch) && Distinct(courseIds) && forall c :: c in courseIds ==> c in courses
    ensures Sat(a, TeacherClashesClauses(ch, courseIds, courses, n))
        <==> (forall c, c', h :: (c in courseIds && c' in courseIds && c != c' && courses[c'].teacher == courses[c].teacher
                                  && 0 <= h < n) ==> !(Taught(a, ch, c, h) && Taught(a, ch, c', h)))
  {
    TeacherGroupsMeaning(a, ch, TeacherOrder(courseIds, courses), courseIds, courses, n);
    TeacherOrderSpec(courseIds, courses);
  }

  // ---------------------------------------------------------------------
  // room_clashes_basic (rooms through ch and cr) and room_clashes_complete (rooms through chr)

  /** The slot loop for one room r: the pairs of `cs` in (h, r) for h < n. */
  function RoomSlotPairs(t: Dicts, cs: seq<CourseId>, r: RoomId, n: nat): seq<Clause> {
    if n == 0 then [] else RoomSlotPairs(t, cs, r, n - 1) + Pairs(t, SameRoom(n - 1, r), cs)
  }

  /** The clause list of `room_clashes_basic`: rooms `rs` outermost, then slots, then pairs of `cs`. */
  function RoomClashesBasicClauses(t: Dicts, cs: seq<CourseId>, rs: seq<RoomId>, n: nat): seq<Clause> {
    if rs == [] then [] else RoomClashesBasicClauses(t, cs, rs[..|rs| - 1], n) + RoomSlotPairs(t, cs, rs[|rs| - 1], n)
  }

  /** complete_encode.py `room_clashes_basic`: all course ids `cs` and room ids `rs` in dictionary order. */
  method RoomClashesBasic(ch: VarMap, cr: VarMap, cs: seq<CourseId>, rs: seq<RoomId>, n: nat) returns (clauses: seq<Clause>)
    ensures clauses == RoomClashesBasicClauses(Dicts(ch, cr, VarMap([], map[])), cs, rs, n)
  {
    var t := Dicts(ch, cr, VarMap([], map[]));
    clauses := [];
    var k := 0;
    while k < |rs|
      invariant 0 <= k <= |rs|
      invariant clauses == RoomClashesBasicClauses(t, cs, rs[..k], n)
    {
      assert rs[..k + 1][..k] == rs[..k];
      var block := RoomClashPairs(t, cs, rs[k], n);
      clauses := clauses + block;
      k := k + 1;
    }
    assert rs[..k] == rs;
  }

  /** The slot loop of `room_clashes_basic` for one room r. */
  method RoomClashPairs(t: Dicts, cs: seq<CourseId>, r: RoomId, n: nat) returns (cls: seq<Clause>)
    ensures cls == RoomSlotPairs(t, cs, r, n)
  {
    cls := [];
    var h := 0;
    while h < n
      invariant 0 <= h <= n
      invariant cls == RoomSlotPairs(t, cs, r, h)
    {
      var block := ClashPairs(t, SameRoom(h, r), cs);
      cls := cls + block;
      h := h + 1;
    }
  }

  lemma {:induction false} RoomSlotPairsMeaning(a: set<int>, t: Dicts, cs: seq<CourseId>, r: RoomId, n: nat)
    requires PositiveDicts(t)
    ensures Sat(a, RoomSlotPairs(t, cs, r, n))
        <==> (forall h, i, j :: 0 <= h < n && 0 <= i < j < |cs|
                ==> !(Occupies(a, t, SameRoom(h, r), cs[i]) && Occupies(a, t, SameRoom(h, r), cs[j])))
  {
    if n > 0 {
      RoomSlotPairsMeaning(a, t, cs, r, n - 1);
      PairsMeaning(a, t, SameRoom(n - 1, r), cs);
      SatAppend(a, RoomSlotPairs(t, cs, r, n - 1), Pairs(t, SameRoom(n - 1, r), cs));
    }
  }

  /** An assignment satisfies `room_clashes_basic` exactly when no two courses of `cs` (by position)
      are both taught in a slot below n and both assigned a room of `rs`. */
  lemma {:induction false} RoomClashesBasicMeaning(a: set<int>, t: Dicts, cs: seq<CourseId>, rs: seq<RoomId>, n: nat)
    requires PositiveDicts(t)
    ensures Sat(a, RoomClashesBasicClauses(t, cs, rs, n))
        <==> (forall r, h, i, j :: r in rs && 0 <= h < n && 0 <= i < j < |cs|
                ==> !(Occupies(a, t, SameRoom(h, r), cs[i]) && Occupies(a, t, SameRoom(h, r), cs[j])))
  {
    if rs != [] {
      var init, r := rs[..|rs| - 1], rs[|rs| - 1];
      assert rs == init + [r];
      RoomClashesBasicMeaning(a, t, cs, init, n);
      RoomSlotPairsMeaning(a, t, cs, r, n);
      SatAppend(a, RoomClashesBasicClauses(t, cs, init, n), RoomSlotPairs(t, cs, r, n));
    }
  }

  /** The room loop for one slot h: the pairs of `cs` in (h, r) for r in `rs`, through chr. */
  function SlotRoomPairs(t: Dicts, cs: seq<CourseId>, h: int, rs: seq<RoomId>): seq<Clause> {
    if rs == [] then [] else SlotRoomPairs(t, cs, h, rs[..|rs| - 1]) + Pairs(t, SameChr(h, rs[|rs| - 1]), cs)
  }

  /** The clause list of `room_clashes_complete`: slots outermost, then rooms, then pairs. */
  function RoomClashesCompleteClauses(t: Dicts, cs: seq<CourseId>, rs: seq<RoomId>, n: nat): seq<Clause> {
    if n == 0 then [] else RoomClashesCompleteClauses(t, cs, rs, n - 1) + SlotRoomPairs(t, cs, n - 1, rs)
  }

  /** complete_encode.py `room_clashes_complete`. */
  method RoomClashesComplete(chr: VarMap, cs: seq<CourseId>, rs: seq<RoomId>, n: nat) returns (clauses: seq<Clause>)
    ensures clauses == RoomClashesCompleteClauses(Dicts(VarMap([], map[]), VarMap([], map[]), chr), cs, rs, n)
  {
    var t := Dicts(VarMap([], map[]), VarMap([], map[]), chr);
    clauses := [];
    var h := 0;
    while h < n
      invariant 0 <= h <= n
      invariant clauses == RoomClashesCompleteClauses(t, cs, rs, h)
    {
      var block := SlotClashPairs(t, cs, h, rs);
      clauses := clauses + block;
      h := h + 1;
    }
  }

  /** The room loop of `room_clashes_complete` for one slot h. */
  method SlotClashPairs(t: Dicts, cs: seq<CourseId>, h: int, rs: seq<RoomId>) returns (cls: seq<Clause>)
    ensures cls == SlotRoomPairs(t, cs, h, rs)
  {
    cls := [];
    var k := 0;
    while k < |rs|
      invariant 0 <= k <= |rs|
      invariant cls == SlotRoomPairs(t, cs, h, rs[..k])
    {
      assert rs[..k + 1][..k] == rs[..k];
      var block := ClashPairs(t, SameChr(h, rs[k]), cs);
      cls := cls + block;
      k := k + 1;
    }
    assert rs[..k] == rs;
  }

  /** At most one course of `cs` (counted by position) occupies `cell`. */
  ghost predicate AtMostOne(a: set<int>, t: Dicts, cell: Cell, cs: seq<CourseId>) {
    forall i, j :: 0 <= i < j < |cs| ==> !(Occupies(a, t, cell, cs[i]) && Occupies(a, t, cell, cs[j]))
  }

  /** In slot h, every room of `rs` holds at most one course of `cs`. */
  ghost predicate SlotApart(a: set<int>, t: Dicts, cs: seq<CourseId>, h: int, rs: seq<RoomId>) {
    forall r :: r in rs ==> AtMostOne(a, t, SameChr(h, r), cs)
  }

  lemma {:induction false} SlotRoomPairsMeaning(a: set<int>, t: Dicts, cs: seq<CourseId>, h: int, rs: seq<RoomId>)
    requires PositiveDicts(t)
    ensures Sat(a, SlotRoomPairs(t, cs, h, rs)) <==> SlotApart(a, t, cs, h, rs)
  {
    if rs != [] {
      var init, r := rs[..|rs| - 1], rs[|rs| - 1];
      assert rs == init + [r];
      SlotRoomPairsMeaning(a, t, cs, h, init);
      PairsMeaning(a, t, SameChr(h, r), cs);
      SatAppend(a, SlotRoomPairs(t, cs, h, init), Pairs(t, SameChr(h, r), cs));
    }
  }

  /** Each slot below n keeps the rooms of `rs` apart. */
  ghost predicate SlotsApart(a: set<int>, t: Dicts, cs: seq<CourseId>, rs: seq<RoomId>, n: nat) {
    forall h :: 0 <= h < n ==> SlotApart(a, t, cs, h, rs)
  }

  lemma SlotsApartSnoc(a: set<int>, t: Dicts, cs: seq<CourseId>, rs: seq<RoomId>, n: nat)
    requires n > 0
    ensures SlotsApart(a, t, cs, rs, n) <==> SlotsApart(a, t, cs, rs, n - 1) && SlotApart(a, t, cs, n - 1, rs)
  {
  }

  /** The clauses of the first n slots hold exactly when each of those slots keeps its rooms apart. */
  lemma {:induction false} RoomClashesCompleteApart(a: set<int>, t: Dicts, cs: seq<CourseId>, rs: seq<RoomId>, n: nat)
    requires PositiveDicts(t)
    ensures Sat(a, RoomClashesCompleteClauses(t, cs, rs, n)) <==> SlotsApart(a, t, cs, rs, n)
  {
    if n > 0 {
      var prev, block := RoomClashesCompleteClauses(t, cs, rs, n - 1), SlotRoomPairs(t, cs, n - 1, rs);
      assert RoomClashesCompleteClauses(t, cs, rs, n) == prev + block;
      RoomClashesCompleteApart(a, t, cs, rs, n - 1);
      SlotRoomPairsMeaning(a, t, cs, n - 1, rs);
      SatAppend(a, prev, block);
      SlotsApartSnoc(a, t, cs, rs, n);
      MeaningStep(Sat(a, RoomClashesCompleteClauses(t, cs, rs, n)), Sat(a, prev), Sat(a, block),
                  SlotsApart(a, t, cs, rs, n), SlotsApart(a, t, cs, rs, n - 1), SlotApart(a, t, cs, n - 1, rs));
    }
  }

  /** An assignment satisfies `room_clashes_complete` exactly when no two courses of `cs`
      (by position) are taught in the same room of `rs` in the same slot below n. */
  lemma RoomClashesCompleteMeaning(a: set<int>, t: Dicts, cs: seq<CourseId>, rs: seq<RoomId>, n: nat)
    requires PositiveDicts(t)
    ensures Sat(a, RoomClashesCompleteClauses(t, cs, rs, n))
        <==> (forall h, r, i, j :: 0 <= h < n && r in rs && 0 <= i < j < |cs|
                ==> !(Occupies(a, t, SameChr(h, r), cs[i]) && Occupies(a, t, SameChr(h, r), cs[j])))
  {
    RoomClashesCompleteApart(a, t, cs, rs, n);
    if SlotsApart(a, t, cs, rs, n) {
      forall h, r, i, j | 0 <= h < n && r in rs && 0 <= i < j < |cs|
        ensures !(Occupies(a, t, SameChr(h, r), cs[i]) && Occupies(a, t, SameChr(h, r), cs[j]))
      {
        assert SlotApart(a, t, cs, h, rs);
        assert AtMostOne(a, t, SameChr(h, r), cs);
      }
    }
  }

  // ---------------------------------------------------------------------
  // time_slot_availability

  /** The absolute slot of an unavailability: day * ppd + period. */
  function UnavailableSlot(u: Unavailability, ppd: int): int {
    u.day * ppd + u.dayPeriod
  }

  /** The clause list of `time_slot_availability`: `[-ch(c, h)]` for each listed (c, h) that `ch` holds. */
  function AvailabilityClauses(ch: VarMap, us: seq<Unavailability>, ppd: int): seq<Clause> {
    if us == [] then []
    else
      var u := us[|us| - 1];
      var v := Ch(u.courseId, UnavailableSlot(u, ppd));
      AvailabilityClauses(ch, us[..|us| - 1], ppd) + (if v in ch.ids then [[-ch.ids[v]]] else [])
  }

  /** complete_encode.py `time_slot_availability`. */
  method TimeSlotAvailability(ch: VarMap, us: seq<Unavailability>, ppd: int) returns (clauses: seq<Clause>)
    ensures clauses == AvailabilityClauses(ch, us, ppd)
  {
    clauses := [];
    var i := 0;
    while i < |us|
      invariant 0 <= i <= |us|
      invariant clauses == AvailabilityClauses(ch, us[..i], ppd)
    {
      var u := us[i];
      assert us[..i + 1][..i] == us[..i];
      var hour := u.day * ppd + u.dayPeriod;
      if Ch(u.courseId, hour) in ch.ids {
        clauses := clauses + [[-ch.ids[Ch(u.courseId, hour)]]];
      }
      i := i + 1;
    }
    assert us[..i] == us;
  }

  /** An assignment satisfies `time_slot_availability` exactly when no course is taught in a slot
      listed as unavailable for it. */
  lemma {:induction false} AvailabilityMeaning(a: set<int>, ch: VarMap, us: seq<Unavailability>, ppd: int)
    requires Positive(ch)
    ensures Sat(a, AvailabilityClauses(ch, us, ppd))
        <==> (forall u :: u in us ==> !Taught(a, ch, u.courseId, UnavailableSlot(u, ppd)))
  {
    if us != [] {
      var init, u := us[..|us| - 1], us[|us| - 1];
      assert us == init + [u];
      AvailabilityMeaning(a, ch, init, ppd);
      var v := Ch(u.courseId, UnavailableSlot(u, ppd));
      if v in ch.ids {
        NotMeaning(a, ch.ids[v]);
      }
      SatAppend(a, AvailabilityClauses(ch, init, ppd), if v in ch.ids then [[-ch.ids[v]]] else []);
    }
  }
}
