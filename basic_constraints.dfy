/**
 * The clash, capacity, isolation and lecture-count generators of the two earlier encoders
 * (basic_encoder.py; encoder.py repeats `curriculum_clashes` and `teacher_clashes`).
 * Each is modelled as written and related to the complete encoder's definition:
 *   - `curriculum_clashes` and `teacher_clashes` walk the slot list `[h for (c, h) in ch]`,
 *     which names every slot once per course, so each clause comes out once per course;
 *   - `teacher_clashes` pairs the first courses of the instance-wide list instead of the
 *     teacher's own courses;
 *   - `room_clashes` and `number_of_lectures` walk the set of slots;
 *   - `room_capacity` yields bare literals instead of unit clauses;
 *   - `isolated_lectures` wants both neighbours of a middle slot.
 */
module BasicConstraints {
  import opened Seqs
  import opened Calendar
  import opened Timetabling
  import opened Variables
  import opened Literals
  import opened Clashes
  import opened Cardinality
  import opened Constraints

  /** The clash generators over slot keys read only `ch`. */
  function OnlyCh(ch: VarMap): Dicts {
    Dicts(ch, VarMap([], map[]), VarMap([], map[]))
  }

  // ---------------------------------------------------------------------
  // The slot list `[h for (c, h) in ch]`

  /** The slot of every slot key, one entry per key, in key order. */
  function HoursOf(keys: seq<Var>): seq<int>
    requires forall v :: v in keys ==> v.Ch?
  {
    if keys == [] then [] else HoursOf(keys[..|keys| - 1]) + [keys[|keys| - 1].h]
  }

  lemma {:induction false} HoursOfAppend(keys: seq<Var>, keys': seq<Var>)
    requires forall v :: v in keys ==> v.Ch?
    requires forall v :: v in keys' ==> v.Ch?
    ensures HoursOf(keys + keys') == HoursOf(keys) + HoursOf(keys')
  {
    if keys' == [] {
      assert keys + keys' == keys;
    } else {
      var init := keys'[..|keys'| - 1];
      assert forall v :: v in init ==> v in keys';
      HoursOfAppend(keys, init);
      assert (keys + keys')[..|keys + keys'| - 1] == keys + init;
    }
  }

  lemma {:induction false} HoursOfRow(c: CourseId, n: nat)
    ensures forall v :: v in SlotRow(CH, c, n) ==> v.Ch?
    ensures HoursOf(SlotRow(CH, c, n)) == Range(0, n)
  {
    if n > 0 {
      HoursOfRow(c, n - 1);
      assert SlotRow(CH, c, n)[..n - 1] == SlotRow(CH, c, n - 1) by {
        SlotRowSpec(CH, c, n);
      }
    }
  }

  /** For the slot keys of `get_ch` (every course, slots 0 .. n-1), the slot list is 0 .. n-1 once
      per course. */
  lemma {:induction false} HoursOfGrid(cs: seq<CourseId>, n: nat)
    ensures forall v :: v in SlotGrid(CH, cs, n) ==> v.Ch?
    ensures HoursOf(SlotGrid(CH, cs, n)) == Repeat(Range(0, n), |cs|)
  {
    if cs != [] {
      var init := cs[..|cs| - 1];
      HoursOfGrid(init, n);
      HoursOfRow(cs[|cs| - 1], n);
      HoursOfAppend(SlotGrid(CH, init, n), SlotRow(CH, cs[|cs| - 1], n));
    }
  }

  /** A slot is listed exactly when some key names it. */
  lemma {:induction false} HoursOfMembers(keys: seq<Var>)
    requires forall v :: v in keys ==> v.Ch?
    ensures forall h :: h in HoursOf(keys) <==> exists v :: v in keys && v.h == h
  {
    if keys != [] {
      var init, last := keys[..|keys| - 1], keys[|keys| - 1];
      assert keys == init + [last];
      assert forall v :: v in init ==> v in keys;
      HoursOfMembers(init);
    }
  }

  // ---------------------------------------------------------------------
  // One group of courses over a slot list

  /** The pairs of `g` in each slot of `hs`, in list order. */
  function SlotListClashes(ch: VarMap, g: seq<CourseId>, hs: seq<int>): seq<Clause> {
    if hs == [] then [] else SlotListClashes(ch, g, hs[..|hs| - 1]) + Pairs(OnlyCh(ch), Together(hs[|hs| - 1]), g)
  }

  /** `for h in hours: for i ...: for j ...` for one group. */
  method ClashGroupOver(ch: VarMap, g: seq<CourseId>, hs: seq<int>) returns (cls: seq<Clause>)
    ensures cls == SlotListClashes(ch, g, hs)
  {
    cls := [];
    var i := 0;
    while i < |hs|
      invariant 0 <= i <= |hs|
      invariant cls == SlotListClashes(ch, g, hs[..i])
    {
      assert hs[..i + 1][..i] == hs[..i];
      var block := ClashPairs(OnlyCh(ch), Together(hs[i]), g);
      cls := cls + block;
      i := i + 1;
    }
    assert hs[..i] == hs;
  }

  lemma {:induction false} SlotListAppend(ch: VarMap, g: seq<CourseId>, hs: seq<int>, hs': seq<int>)
    ensures SlotListClashes(ch, g, hs + hs') == SlotListClashes(ch, g, hs) + SlotListClashes(ch, g, hs')
  {
    if hs' == [] {
      assert hs + hs' == hs;
    } else {
      SlotListAppend(ch, g, hs, hs'[..|hs'| - 1]);
      assert (hs + hs')[..|hs + hs'| - 1] == hs + hs'[..|hs'| - 1];
    }
  }

  /** Over the slots 0 .. n-1, once each, a group gets the complete encoder's clauses. */
  lemma {:induction false} SlotListRange(ch: VarMap, g: seq<CourseId>, n: nat)
    ensures SlotListClashes(ch, g, Range(0, n)) == GroupClashes(ch, g, n)
  {
    if n > 0 {
      SlotListRange(ch, g, n - 1);
    }
  }

  /** Over the slot list repeated m times, a group gets m copies of the complete encoder's clauses. */
  lemma {:induction false} SlotListRepeat(ch: VarMap, g: seq<CourseId>, n: nat, m: nat)
    ensures SlotListClashes(ch, g, Repeat(Range(0, n), m)) == Repeat(GroupClashes(ch, g, n), m)
  {
    if m > 0 {
      SlotListRepeat(ch, g, n, m - 1);
      SlotListAppend(ch, g, Repeat(Range(0, n), m - 1), Range(0, n));
      SlotListRange(ch, g, n);
    }
  }

  /** A group's clauses over a slot list are satisfied exactly when no two of its courses (by
      position) are taught together in a listed slot. */
  lemma {:induction false} SlotListClashesMeaning(a: set<int>, ch: VarMap, g: seq<CourseId>, hs: seq<int>)
    requires Positive(ch)
    ensures Sat(a, SlotListClashes(ch, g, hs))
        <==> (forall h, i, j :: h in hs && 0 <= i < j < |g| ==> !(Taught(a, ch, g[i], h) && Taught(a, ch, g[j], h)))
  {
    if hs != [] {
      var init, h := hs[..|hs| - 1], hs[|hs| - 1];
      assert hs == init + [h];
      assert forall x :: x in init ==> x in hs;
      assert h in hs;
      SlotListClashesMeaning(a, ch, g, init);
      var t := OnlyCh(ch);
      PairsMeaning(a, t, Together(h), g);
      assert forall c {:trigger Occupies(a, t, Together(h), c)} :: Occupies(a, t, Together(h), c) <==> Taught(a, ch, c, h);
      SatAppend(a, SlotListClashes(ch, g, init), Pairs(t, Together(h), g));
      if (forall h', i, j :: h' in init && 0 <= i < j < |g| ==> !(Taught(a, ch, g[i], h') && Taught(a, ch, g[j], h')))
         && (forall i, j :: 0 <= i < j < |g| ==> !(Taught(a, ch, g[i], h) && Taught(a, ch, g[j], h))) {
        forall h', i, j | h' in hs && 0 <= i < j < |g|
          ensures !(Taught(a, ch, g[i], h') && Taught(a, ch, g[j], h'))
        {
          if h' != h {
            assert h' in init;
          }
        }
      }
    }
  }

  // ---------------------------------------------------------------------
  // curriculum_clashes (basic_encoder.py, encoder.py)

  /** The clause list of the older `curriculum_clashes`: every curriculum of `kids` over the slot list. */
  function ListedCurriculumClashes(ch: VarMap, kids: seq<CurriculumId>, curricula: map<CurriculumId, Curriculum>,
                                   hs: seq<int>): seq<Clause>
    requires forall k :: k in kids ==> k in curricula
  {
    if kids == [] then []
    else ListedCurriculumClashes(ch, kids[..|kids| - 1], curricula, hs) + SlotListClashes(ch, curricula[kids[|kids| - 1]].courses, hs)
  }

  /** basic_encoder.py and encoder.py `curriculum_clashes`. */
  method CurriculumClashesOver(ch: VarMap, kids: seq<CurriculumId>, curricula: map<CurriculumId, Curriculum>)
    returns (clauses: seq<Clause>)
    requires ChMap(ch) && forall k :: k in kids ==> k in curricula
    ensures clauses == ListedCurriculumClashes(ch, kids, curricula, HoursOf(ch.keys))
  {
    clauses := [];
    var i := 0;
    while i < |kids|
      invariant 0 <= i <= |kids|
      invariant clauses == ListedCurriculumClashes(ch, kids[..i], curricula, HoursOf(ch.keys))
    {
      assert kids[..i + 1][..i] == kids[..i];
      var hours := HoursOf(ch.keys);
      var block := ClashGroupOver(ch, curricula[kids[i]].courses, hours);
      clauses := clauses + block;
      i := i + 1;
    }
    assert kids[..i] == kids;
  }

  /** An assignment satisfies the older `curriculum_clashes` exactly when no two courses of one
      curriculum are taught together in a listed slot. */
  lemma {:induction false} ListedCurriculumMeaning(a: set<int>, ch: VarMap, kids: seq<CurriculumId>,
                                                   curricula: map<CurriculumId, Curriculum>, hs: seq<int>)
    requires Positive(ch) && forall k :: k in kids ==> k in curricula
    ensures Sat(a, ListedCurriculumClashes(ch, kids, curricula, hs))
        <==> (forall k, h, i, j :: k in kids && h in hs && 0 <= i < j < |curricula[k].courses|
                ==> !(Taught(a, ch, curricula[k].courses[i], h) && Taught(a, ch, curricula[k].courses[j], h)))
  {
    if kids != [] {
      var init, k := kids[..|kids| - 1], kids[|kids| - 1];
      assert forall x :: x in init ==> x in kids;
      assert kids == init + [k];
      ListedCurriculumMeaning(a, ch, init, curricula, hs);
      SlotListClashesMeaning(a, ch, curricula[k].courses, hs);
      SatAppend(a, ListedCurriculumClashes(ch, init, curricula, hs), SlotListClashes(ch, curricula[k].courses, hs));
    }
  }

  /** With the slot keys of `get_ch` for m courses, every clause of the complete encoder's
      `curriculum_clashes` comes out exactly m times as often. */
  lemma {:induction false} ListedCurriculumCopies(ch: VarMap, kids: seq<CurriculumId>, curricula: map<CurriculumId, Curriculum>,
                                                  n: nat, m: nat, cl: Clause)
    requires forall k :: k in kids ==> k in curricula
    ensures multiset(ListedCurriculumClashes(ch, kids, curricula, Repeat(Range(0, n), m)))[cl]
         == m * multiset(CurriculumClashesClauses(ch, kids, curricula, n))[cl]
  {
    if kids != [] {
      var init := kids[..|kids| - 1];
      assert forall x :: x in init ==> x in kids;
      ListedCurriculumCopies(ch, init, curricula, n, m, cl);
      var block := GroupClashes(ch, curricula[kids[|kids| - 1]].courses, n);
      ListedCurriculumSnoc(ch, kids, curricula, n, m);
      RepeatCount(block, m, cl);
      CopiesStep(ListedCurriculumClashes(ch, init, curricula, Repeat(Range(0, n), m)), Repeat(block, m),
                 CurriculumClashesClauses(ch, init, curricula, n), block, m, cl);
    }
  }

  /** Counts of copies add up over a concatenation. */
  lemma CopiesStep(listed: seq<Clause>, repeated: seq<Clause>, clauses: seq<Clause>, block: seq<Clause>, m: nat, cl: Clause)
    requires multiset(listed)[cl] == m * multiset(clauses)[cl] && multiset(repeated)[cl] == m * multiset(block)[cl]
    ensures multiset(listed + repeated)[cl] == m * multiset(clauses + block)[cl]
  {
    CountAppend(listed, repeated, cl);
    CountAppend(clauses, block, cl);
    ScaledSum(m, multiset(clauses)[cl], multiset(block)[cl], multiset(listed)[cl], multiset(repeated)[cl]);
  }

  /** One more curriculum adds its group's clauses, m times over the repeated slot list. */
  lemma ListedCurriculumSnoc(ch: VarMap, kids: seq<CurriculumId>, curricula: map<CurriculumId, Curriculum>, n: nat, m: nat)
    requires kids != [] && forall k :: k in kids ==> k in curricula
    ensures ListedCurriculumClashes(ch, kids, curricula, Repeat(Range(0, n), m))
         == ListedCurriculumClashes(ch, kids[..|kids| - 1], curricula, Repeat(Range(0, n), m))
            + Repeat(GroupClashes(ch, curricula[kids[|kids| - 1]].courses, n), m)
    ensures CurriculumClashesClauses(ch, kids, curricula, n)
         == CurriculumClashesClauses(ch, kids[..|kids| - 1], curricula, n) + GroupClashes(ch, curricula[kids[|kids| - 1]].courses, n)
  {
    SlotListRepeat(ch, curricula[kids[|kids| - 1]].courses, n, m);
  }

  lemma ScaledSum(m: int, x: int, y: int, mx: int, my: int)
    requires mx == m * x && my == m * y
    ensures mx + my == m * (x + y)
  {
  }

  // ---------------------------------------------------------------------
  // teacher_clashes (basic_encoder.py, encoder.py): pairs from the global course list

  lemma {:induction false} GroupLength(cs: seq<CourseId>, courses: map<CourseId, Course>, t: TeacherId)
    requires forall c :: c in cs ==> c in courses
    ensures |Group(cs, courses, t)| <= |cs|
  {
    if cs != [] {
      GroupLength(cs[..|cs| - 1], courses, t);
    }
  }

  /** The block of the older `teacher_clashes` for the teachers `ts`: a teacher with two or more
      courses contributes the pairs among the first |group| courses of `courseIds`, in each
      slot of the list. */
  function MispairedGroups(ch: VarMap, ts: seq<TeacherId>, courseIds: seq<CourseId>, courses: map<CourseId, Course>,
                           hs: seq<int>): seq<Clause>
    requires forall c :: c in courseIds ==> c in courses
  {
    if ts == [] then []
    else
      var g := Group(courseIds, courses, ts[|ts| - 1]);
      GroupLength(courseIds, courses, ts[|ts| - 1]);
      MispairedGroups(ch, ts[..|ts| - 1], courseIds, courses, hs)
        + (if |g| < 2 then [] else SlotListClashes(ch, courseIds[..|g|], hs))
  }

  /** The clause list of the older `teacher_clashes`, as written. */
  function TeacherClashesAsWritten(ch: VarMap, courseIds: seq<CourseId>, courses: map<CourseId, Course>): seq<Clause>
    requires ChMap(ch) && forall c :: c in courseIds ==> c in courses
  {
    MispairedGroups(ch, TeacherOrder(courseIds, courses), courseIds, courses, HoursOf(ch.keys))
  }

  /** basic_encoder.py and encoder.py `teacher_clashes`. */
  method TeacherClashesMispaired(courseIds: seq<CourseId>, courses: map<CourseId, Course>, ch: VarMap)
    returns (clauses: seq<Clause>)
    requires ChMap(ch) && forall c :: c in courseIds ==> c in courses
    ensures clauses == TeacherClashesAsWritten(ch, courseIds, courses)
  {
    var tm := MapTeacher(courseIds, courses);
    var hours := HoursOf(ch.keys);
    clauses := [];
    var i := 0;
    while i < |tm.teachers|
      invariant 0 <= i <= |tm.teachers|
      invariant clauses == MispairedGroups(ch, tm.teachers[..i], courseIds, courses, hours)
    {
      var t := tm.teachers[i];
      assert tm.teachers[..i + 1][..i] == tm.teachers[..i];
      var size := |tm.groups[t]|;
      GroupLength(courseIds, courses, t);
      if size >= 2 {
        var block := ClashGroupOver(ch, courseIds[..size], hours);
        clauses := clauses + block;
      } else {
        assert MispairedGroups(ch, tm.teachers[..i + 1], courseIds, courses, hours)
            == MispairedGroups(ch, tm.teachers[..i], courseIds, courses, hours) + [];
      }
      i := i + 1;
    }
    assert tm.teachers[..i] == tm.teachers;
  }

  /** What the older `teacher_clashes` forbids: for a teacher with g >= 2 courses, the courses at
      positions i < j < g of the instance-wide list may not share a listed slot, whoever teaches them. */
  lemma {:induction false} MispairedMeaning(a: set<int>, ch: VarMap, ts: seq<TeacherId>, courseIds: seq<CourseId>,
                                            courses: map<CourseId, Course>, hs: seq<int>)
    requires Positive(ch) && forall c :: c in courseIds ==> c in courses
    ensures forall t :: |Group(courseIds, courses, t)| <= |courseIds|
    ensures Sat(a, MispairedGroups(ch, ts, courseIds, courses, hs))
        <==> (forall t, h, i, j :: t in ts && 2 <= |Group(courseIds, courses, t)| && h in hs
                                   && 0 <= i < j < |Group(courseIds, courses, t)|
                ==> !(Taught(a, ch, courseIds[i], h) && Taught(a, ch, courseIds[j], h)))
  {
    forall t {
      GroupLength(courseIds, courses, t);
    }
    if ts != [] {
      var init, t := ts[..|ts| - 1], ts[|ts| - 1];
      assert ts == init + [t];
      MispairedMeaning(a, ch, init, courseIds, courses, hs);
      var g := Group(courseIds, courses, t);
      GroupLength(courseIds, courses, t);
      var block := if |g| < 2 then [] else SlotListClashes(ch, courseIds[..|g|], hs);
      SatAppend(a, MispairedGroups(ch, init, courseIds, courses, hs), block);
      if |g| >= 2 {
        SlotListClashesMeaning(a, ch, courseIds[..|g|], hs);
      }
    }
  }

  /** The three courses of the counterexample below: a taught by T, b and c both taught by U. */
  function ThreeCourses(): map<CourseId, Course> {
    map["a" := Course("T", 1, 1, 1), "b" := Course("U", 1, 1, 1), "c" := Course("U", 1, 1, 1)]
  }

  /** `get_ch` for those courses and one slot: ids 1, 2, 3. */
  lemma ThreeCourseSlots()
    ensures SlotGrid(CH, ["a", "b", "c"], 1) == [Ch("a", 0), Ch("b", 0), Ch("c", 0)]
  {
    assert SlotGrid(CH, ["a"], 1) == [Ch("a", 0)] by {
      assert ["a"][..0] == [];
    }
    assert SlotGrid(CH, ["a", "b"], 1) == [Ch("a", 0), Ch("b", 0)] by {
      assert ["a", "b"][..1] == ["a"];
    }
    assert ["a", "b", "c"][..2] == ["a", "b"];
  }

  lemma ThreeCourseTeachers()
    ensures TeacherOrder(["a", "b", "c"], ThreeCourses()) == ["T", "U"]
    ensures Group(["a", "b", "c"], ThreeCourses(), "T") == ["a"]
    ensures Group(["a", "b", "c"], ThreeCourses(), "U") == ["b", "c"]
  {
    var courses := ThreeCourses();
    assert "a" in courses && "b" in courses && "c" in courses;
    assert courses["a"].teacher == "T" && courses["b"].teacher == "U" && courses["c"].teacher == "U";
    TwoTeachersOrder(courses);
    TwoTeachersGroups(courses);
  }

  /** T and U are different teachers. */
  lemma TwoTeachersDistinct()
    ensures "T" != "U"
  {
    assert "T"[0] != "U"[0];
  }

  /** The teachers of a, b, c in order, when a has T and b, c have U. */
  lemma TwoTeachersOrder(courses: map<CourseId, Course>)
    requires "a" in courses && "b" in courses && "c" in courses
    requires courses["a"].teacher == "T" && courses["b"].teacher == "U" && courses["c"].teacher == "U"
    ensures TeacherOrder(["a", "b", "c"], courses) == ["T", "U"]
  {
    TwoTeachersDistinct();
    assert ["a", "b", "c"][..2] == ["a", "b"] && ["a", "b"][..1] == ["a"] && ["a"][..0] == [];
    assert TeacherOrder(["a"], courses) == ["T"];
    assert TeacherOrder(["a", "b"], courses) == ["T", "U"];
  }

  /** The groups of T and U, when a has T and b, c have U. */
  lemma TwoTeachersGroups(courses: map<CourseId, Course>)
    requires "a" in courses && "b" in courses && "c" in courses
    requires courses["a"].teacher == "T" && courses["b"].teacher == "U" && courses["c"].teacher == "U"
    ensures Group(["a", "b", "c"], courses, "T") == ["a"]
    ensures Group(["a", "b", "c"], courses, "U") == ["b", "c"]
  {
    TwoTeachersDistinct();
    assert ["a", "b", "c"][..2] == ["a", "b"] && ["a", "b"][..1] == ["a"] && ["a"][..0] == [];
    assert Group(["a"], courses, "T") == ["a"] && Group(["a"], courses, "U") == [];
    assert Group(["a", "b"], courses, "T") == ["a"] && Group(["a", "b"], courses, "U") == ["b"];
  }

  /** The pair clause of two courses in slot 0. */
  lemma TwoCoursePair(ch: VarMap, x: CourseId, y: CourseId)
    requires Ch(x, 0) in ch.ids && Ch(y, 0) in ch.ids
    ensures Pairs(OnlyCh(ch), Together(0), [x, y]) == [[-ch.ids[Ch(x, 0)], -ch.ids[Ch(y, 0)]]]
  {
    var t, cell, g := OnlyCh(ch), Together(0), [x, y];
    assert PairRow(t, cell, g, 0, 1) == [];
    assert PairRow(t, cell, g, 1, 2) == [];
    assert PairsUpTo(t, cell, g, 1) == Clash(t, cell, x, y);
  }

  /** The clauses the older `teacher_clashes` emits for teacher U: the pair (a, b), once per slot entry. */
  lemma ThreeCourseBlock(ch: VarMap)
    requires Ch("a", 0) in ch.ids && Ch("b", 0) in ch.ids && ch.ids[Ch("a", 0)] == 1 && ch.ids[Ch("b", 0)] == 2
    ensures SlotListClashes(ch, ["a", "b"], [0, 0, 0]) == [[-1, -2], [-1, -2], [-1, -2]]
  {
    var g := ["a", "b"];
    TwoCoursePair(ch, "a", "b");
    assert [0, 0, 0][..2] == [0, 0] && [0, 0][..1] == [0] && [0][..0] == [];
    assert SlotListClashes(ch, g, [0]) == [[-1, -2]];
    assert SlotListClashes(ch, g, [0, 0]) == [[-1, -2], [-1, -2]];
  }

  /** The complete encoder's `teacher_clashes` on the same instance: the pair (b, c). */
  lemma ThreeCourseComplete()
    ensures TeacherClashesClauses(ThreeCourseCh(), ["a", "b", "c"], ThreeCourses(), 1) == [[-2, -3]]
  {
    ThreeCourseChValue();
    ThreeCourseCompleteFor(ThreeCourseCh());
  }

  /** The same, for any ch giving b and c the ids 2 and 3. */
  lemma ThreeCourseCompleteFor(ch: VarMap)
    requires Ch("b", 0) in ch.ids && Ch("c", 0) in ch.ids && ch.ids[Ch("b", 0)] == 2 && ch.ids[Ch("c", 0)] == 3
    ensures TeacherClashesClauses(ch, ["a", "b", "c"], ThreeCourses(), 1) == [[-2, -3]]
  {
    var ids, courses := ["a", "b", "c"], ThreeCourses();
    ThreeCourseTeachers();
    TwoCoursePair(ch, "b", "c");
    PairsShort(OnlyCh(ch), Together(0), ["a"], 1);
    assert GroupClashes(ch, ["a"], 1) == [];
    assert GroupClashes(ch, ["b", "c"], 1) == [[-2, -3]];
    assert ["T", "U"][..1] == ["T"] && ["T"][..0] == [];
    assert TeacherGroupsClauses(ch, ["T"], ids, courses, 1) == [];
  }

  /** `get_ch` for the three courses and one slot, from id 1. */
  function ThreeCourseCh(): VarMap {
    Dense(SlotGrid(CH, ["a", "b", "c"], 1), 1)
  }

  /** The three course names differ. */
  lemma ThreeNamesDistinct()
    ensures "a" != "b" && "a" != "c" && "b" != "c"
  {
    assert "a"[0] != "b"[0] && "a"[0] != "c"[0] && "b"[0] != "c"[0];
  }

  /** The dictionary `get_ch` builds: a, b, c get the ids 1, 2, 3. */
  lemma ThreeCourseChValue()
    ensures ThreeCourseCh() == VarMap([Ch("a", 0), Ch("b", 0), Ch("c", 0)], map[Ch("a", 0) := 1, Ch("b", 0) := 2, Ch("c", 0) := 3])
  {
    var a0, b0, c0 := Ch("a", 0), Ch("b", 0), Ch("c", 0);
    ThreeNamesDistinct();
    ThreeCourseSlots();
    var ks := [a0, b0, c0];
    assert ks[..2] == [a0, b0] && [a0, b0][..1] == [a0] && [a0][..0] == [];
    assert Dense([a0], 1) == VarMap([a0], map[a0 := 1]);
    assert Dense([a0, b0], 1) == Dense([a0], 1).Put(b0, 2);
    assert Dense([a0, b0], 1) == VarMap([a0, b0], map[a0 := 1, b0 := 2]);
    assert Dense(ks, 1) == Dense([a0, b0], 1).Put(c0, 3);
  }

  lemma ThreeCourseChShape()
    ensures ChMap(ThreeCourseCh()) && Positive(ThreeCourseCh())
    ensures ThreeCourseCh() == VarMap([Ch("a", 0), Ch("b", 0), Ch("c", 0)], map[Ch("a", 0) := 1, Ch("b", 0) := 2, Ch("c", 0) := 3])
    ensures HoursOf(ThreeCourseCh().keys) == [0, 0, 0]
  {
    ThreeCourseChValue();
    ThreeCourseChFamily();
    ThreeCourseHours();
  }

  lemma ThreeCourseChFamily()
    ensures var m := VarMap([Ch("a", 0), Ch("b", 0), Ch("c", 0)], map[Ch("a", 0) := 1, Ch("b", 0) := 2, Ch("c", 0) := 3]);
            ChMap(m) && Positive(m)
  {
    ThreeNamesDistinct();
  }

  lemma ThreeCourseHours()
    ensures HoursOf([Ch("a", 0), Ch("b", 0), Ch("c", 0)]) == [0, 0, 0]
  {
    var a0, b0, c0 := Ch("a", 0), Ch("b", 0), Ch("c", 0);
    assert [a0, b0, c0][..2] == [a0, b0] && [a0, b0][..1] == [a0] && [a0][..0] == [];
    assert HoursOf([a0]) == [0];
    assert HoursOf([a0, b0]) == [0, 0];
  }

  lemma ThreeCourseWritten()
    ensures ChMap(ThreeCourseCh())
    ensures TeacherClashesAsWritten(ThreeCourseCh(), ["a", "b", "c"], ThreeCourses()) == [[-1, -2], [-1, -2], [-1, -2]]
  {
    ThreeCourseChShape();
    ThreeCourseWrittenFor(ThreeCourseCh());
  }

  /** The same, for any ch of three keys in slot 0 giving a and b the ids 1 and 2. */
  lemma ThreeCourseWrittenFor(ch: VarMap)
    requires ChMap(ch) && HoursOf(ch.keys) == [0, 0, 0]
    requires Ch("a", 0) in ch.ids && Ch("b", 0) in ch.ids && ch.ids[Ch("a", 0)] == 1 && ch.ids[Ch("b", 0)] == 2
    ensures TeacherClashesAsWritten(ch, ["a", "b", "c"], ThreeCourses()) == [[-1, -2], [-1, -2], [-1, -2]]
  {
    var ids, courses := ["a", "b", "c"], ThreeCourses();
    ThreeCourseTeachers();
    ThreeCourseBlock(ch);
    assert ["T", "U"][..1] == ["T"] && ["T"][..0] == [];
    assert ids[..2] == ["a", "b"];
    assert MispairedGroups(ch, ["T"], ids, courses, [0, 0, 0]) == [];
  }

  /** A concrete instance on which the older `teacher_clashes` misses a clash: one slot, courses a
      (teacher T), b and c (both teacher U).  It forbids a and b together, three times over, and
      lets b and c, one teacher's two courses, share the slot, which the complete encoder forbids. */
  lemma TeacherClashesMispairing()
    ensures ChMap(ThreeCourseCh())
    ensures TeacherClashesAsWritten(ThreeCourseCh(), ["a", "b", "c"], ThreeCourses()) == [[-1, -2], [-1, -2], [-1, -2]]
    ensures ThreeCourses()["b"].teacher == ThreeCourses()["c"].teacher
    ensures Taught({2, 3}, ThreeCourseCh(), "b", 0) && Taught({2, 3}, ThreeCourseCh(), "c", 0)
    ensures Sat({2, 3}, TeacherClashesAsWritten(ThreeCourseCh(), ["a", "b", "c"], ThreeCourses()))
    ensures !Sat({2, 3}, TeacherClashesClauses(ThreeCourseCh(), ["a", "b", "c"], ThreeCourses(), 1))
  {
    ThreeCourseWritten();
    ThreeCourseComplete();
    ThreeCourseTaught();
    WrittenAdmits();
    CompleteForbids();
  }

  /** b and c (ids 2 and 3) are both taught in slot 0 under the assignment {2, 3}. */
  lemma ThreeCourseTaught()
    ensures ThreeCourses()["b"].teacher == ThreeCourses()["c"].teacher
    ensures Taught({2, 3}, ThreeCourseCh(), "b", 0) && Taught({2, 3}, ThreeCourseCh(), "c", 0)
  {
    ThreeCourseChValue();
    ThreeNamesDistinct();
  }

  /** The clauses of the older encoder are satisfied by {2, 3}: each holds through -1. */
  lemma WrittenAdmits()
    ensures Sat({2, 3}, [[-1, -2], [-1, -2], [-1, -2]])
  {
    var written := [[-1, -2], [-1, -2], [-1, -2]];
    assert Holds({2, 3}, -1);
    forall cl | cl in written
      ensures SatClause({2, 3}, cl)
    {
      assert cl == [-1, -2];
      assert -1 in cl;
    }
  }

  /** The clause of the complete encoder is falsified by {2, 3}. */
  lemma CompleteForbids()
    ensures !Sat({2, 3}, [[-2, -3]])
  {
    assert [-2, -3] in [[-2, -3]];
    assert !SatClause({2, 3}, [-2, -3]);
  }

  // ---------------------------------------------------------------------
  // room_clashes (basic_encoder.py): slots outermost, then rooms, then pairs

  /** The room loop for one slot h: the pairs of `cs` in (h, r) through ch and cr, rooms in order. */
  function RoomsAt(t: Dicts, cs: seq<CourseId>, rs: seq<RoomId>, h: int): seq<Clause> {
    if rs == [] then [] else RoomsAt(t, cs, rs[..|rs| - 1], h) + Pairs(t, SameRoom(h, rs[|rs| - 1]), cs)
  }

  /** The clause list of the older `room_clashes`, slots `hs` outermost. */
  function RoomClashesByHour(t: Dicts, cs: seq<CourseId>, rs: seq<RoomId>, hs: seq<int>): seq<Clause> {
    if hs == [] then [] else RoomClashesByHour(t, cs, rs, hs[..|hs| - 1]) + RoomsAt(t, cs, rs, hs[|hs| - 1])
  }

  method RoomsAtLoop(t: Dicts, cs: seq<CourseId>, rs: seq<RoomId>, h: int) returns (cls: seq<Clause>)
    ensures cls == RoomsAt(t, cs, rs, h)
  {
    cls := [];
    var k := 0;
    while k < |rs|
      invariant 0 <= k <= |rs|
      invariant cls == RoomsAt(t, cs, rs[..k], h)
    {
      assert rs[..k + 1][..k] == rs[..k];
      var block := ClashPairs(t, SameRoom(h, rs[k]), cs);
      cls := cls + block;
      k := k + 1;
    }
    assert rs[..k] == rs;
  }

  /** basic_encoder.py `room_clashes`: `hs` is the set of slots of `ch`, in iteration order. */
  method RoomClashesOver(ch: VarMap, cr: VarMap, cs: seq<CourseId>, rs: seq<RoomId>, hs: seq<int>)
    returns (clauses: seq<Clause>)
    ensures clauses == RoomClashesByHour(Dicts(ch, cr, VarMap([], map[])), cs, rs, hs)
  {
    var t := Dicts(ch, cr, VarMap([], map[]));
    clauses := [];
    var i := 0;
    while i < |hs|
      invariant 0 <= i <= |hs|
      invariant clauses == RoomClashesByHour(t, cs, rs, hs[..i])
    {
      assert hs[..i + 1][..i] == hs[..i];
      var block := RoomsAtLoop(t, cs, rs, hs[i]);
      clauses := clauses + block;
      i := i + 1;
    }
    assert hs[..i] == hs;
  }

  lemma {:induction false} RoomsAtMeaning(a: set<int>, t: Dicts, cs: seq<CourseId>, rs: seq<RoomId>, h: int)
    requires PositiveDicts(t)
    ensures Sat(a, RoomsAt(t, cs, rs, h))
        <==> (forall r, i, j :: r in rs && 0 <= i < j < |cs|
                ==> !(Occupies(a, t, SameRoom(h, r), cs[i]) && Occupies(a, t, SameRoom(h, r), cs[j])))
  {
    if rs != [] {
      var init, r := rs[..|rs| - 1], rs[|rs| - 1];
      assert rs == init + [r];
      RoomsAtMeaning(a, t, cs, init, h);
      PairsMeaning(a, t, SameRoom(h, r), cs);
      SatAppend(a, RoomsAt(t, cs, init, h), Pairs(t, SameRoom(h, r), cs));
    }
  }

  /** An assignment satisfies the older `room_clashes` exactly when no two courses share a room in a
      listed slot. */
  lemma {:induction false} RoomClashesByHourMeaning(a: set<int>, t: Dicts, cs: seq<CourseId>, rs: seq<RoomId>, hs: seq<int>)
    requires PositiveDicts(t)
    ensures Sat(a, RoomClashesByHour(t, cs, rs, hs))
        <==> (forall h, r, i, j :: h in hs && r in rs && 0 <= i < j < |cs|
                ==> !(Occupies(a, t, SameRoom(h, r), cs[i]) && Occupies(a, t, SameRoom(h, r), cs[j])))
  {
    if hs != [] {
      var init, h := hs[..|hs| - 1], hs[|hs| - 1];
      assert hs == init + [h];
      RoomClashesByHourMeaning(a, t, cs, rs, init);
      RoomsAtMeaning(a, t, cs, rs, h);
      SatAppend(a, RoomClashesByHour(t, cs, rs, init), RoomsAt(t, cs, rs, h));
    }
  }

  /** Over the slots 0 .. n-1 the older `room_clashes` accepts the same assignments as the
      complete encoder's `room_clashes_basic`, which loops over rooms first. */
  lemma RoomClashesByHourAgrees(a: set<int>, t: Dicts, cs: seq<CourseId>, rs: seq<RoomId>, n: nat)
    requires PositiveDicts(t)
    ensures Sat(a, RoomClashesByHour(t, cs, rs, Range(0, n))) <==> Sat(a, RoomClashesBasicClauses(t, cs, rs, n))
  {
    RoomClashesByHourMeaning(a, t, cs, rs, Range(0, n));
    RoomClashesBasicMeaning(a, t, cs, rs, n);
    RangeMember(0, n);
  }

  // ---------------------------------------------------------------------
  // room_capacity (basic_encoder.py): bare literals

  /** The literals `-cr[(c, r)]` of one course for the rooms too small for it. */
  function BareCapacityRow(cr: VarMap, c: CourseId, ns: int, rs: seq<RoomId>, rooms: map<RoomId, Room>): seq<int>
    requires forall r :: r in rs ==> r in rooms && Cr(c, r) in cr.ids
  {
    if rs == [] then []
    else
      var r := rs[|rs| - 1];
      BareCapacityRow(cr, c, ns, rs[..|rs| - 1], rooms) + (if ns > rooms[r].capacity then [-cr.ids[Cr(c, r)]] else [])
  }

  /** What the older `room_capacity` returns: a list of literals, not of clauses. */
  function BareCapacity(cr: VarMap, cs: seq<CourseId>, courses: map<CourseId, Course>, rs: seq<RoomId>,
                        rooms: map<RoomId, Room>): seq<int>
    requires forall c :: c in cs ==> c in courses
    requires forall r :: r in rs ==> r in rooms
    requires forall c, r :: c in cs && r in rs ==> Cr(c, r) in cr.ids
  {
    if cs == [] then []
    else
      var c := cs[|cs| - 1];
      BareCapacity(cr, cs[..|cs| - 1], courses, rs, rooms) + BareCapacityRow(cr, c, courses[c].numStudents, rs, rooms)
  }

  method BareCapacityRowLoop(cr: VarMap, c: CourseId, ns: int, rs: seq<RoomId>, rooms: map<RoomId, Room>)
    returns (lits: seq<int>)
    requires forall r :: r in rs ==> r in rooms && Cr(c, r) in cr.ids
    ensures lits == BareCapacityRow(cr, c, ns, rs, rooms)
  {
    lits := [];
    var j := 0;
    while j < |rs|
      invariant 0 <= j <= |rs|
      invariant lits == BareCapacityRow(cr, c, ns, rs[..j], rooms)
    {
      var r := rs[j];
      assert rs[..j + 1][..j] == rs[..j];
      if ns > rooms[r].capacity {
        lits := lits + [-cr.ids[Cr(c, r)]];
      }
      j := j + 1;
    }
    assert rs[..j] == rs;
  }

  /** basic_encoder.py `room_capacity`, as written. */
  method RoomCapacityBare(cs: seq<CourseId>, courses: map<CourseId, Course>, rs: seq<RoomId>, rooms: map<RoomId, Room>,
                          cr: VarMap) returns (lits: seq<int>)
    requires forall c :: c in cs ==> c in courses
    requires forall r :: r in rs ==> r in rooms
    requires forall c, r :: c in cs && r in rs ==> Cr(c, r) in cr.ids
    ensures lits == BareCapacity(cr, cs, courses, rs, rooms)
  {
    lits := [];
    var i := 0;
    while i < |cs|
      invariant 0 <= i <= |cs|
      invariant lits == BareCapacity(cr, cs[..i], courses, rs, rooms)
    {
      var c := cs[i];
      assert cs[..i + 1][..i] == cs[..i];
      var row := BareCapacityRowLoop(cr, c, courses[c].numStudents, rs, rooms);
      lits := lits + row;
      i := i + 1;
    }
    assert cs[..i] == cs;
  }

  /** Each literal as a unit clause. */
  function Units(lits: seq<int>): (cls: seq<Clause>)
    ensures |cls| == |lits|
    ensures forall i :: 0 <= i < |lits| ==> cls[i] == [lits[i]]
  {
    if lits == [] then [] else Units(lits[..|lits| - 1]) + [[lits[|lits| - 1]]]
  }

  lemma {:induction false} UnitsAppend(x: seq<int>, y: seq<int>)
    ensures Units(x + y) == Units(x) + Units(y)
  {
    if y != [] {
      UnitsAppend(x, y[..|y| - 1]);
      assert (x + y)[..|x + y| - 1] == x + y[..|y| - 1];
    } else {
      assert x + y == x;
    }
  }

  lemma {:induction false} BareCapacityRowUnits(cr: VarMap, c: CourseId, ns: int, rs: seq<RoomId>, rooms: map<RoomId, Room>)
    requires forall r :: r in rs ==> r in rooms && Cr(c, r) in cr.ids
    ensures Units(BareCapacityRow(cr, c, ns, rs, rooms)) == CapacityRow(cr, c, ns, rs, rooms)
  {
    if rs != [] {
      var init, r := rs[..|rs| - 1], rs[|rs| - 1];
      assert forall x :: x in init ==> x in rs;
      BareCapacityRowUnits(cr, c, ns, init, rooms);
      UnitsAppend(BareCapacityRow(cr, c, ns, init, rooms), if ns > rooms[r].capacity then [-cr.ids[Cr(c, r)]] else []);
      if ns > rooms[r].capacity {
        assert [-cr.ids[Cr(c, r)]][..0] == [];
      }
    }
  }

  /** Wrapped as unit clauses, the literals of the older `room_capacity` are exactly the clause list of
      the complete encoder's `room_capacity_hard`. */
  lemma {:induction false} BareCapacityUnits(cr: VarMap, cs: seq<CourseId>, courses: map<CourseId, Course>, rs: seq<RoomId>,
                                             rooms: map<RoomId, Room>)
    requires forall c :: c in cs ==> c in courses
    requires forall r :: r in rs ==> r in rooms
    requires forall c, r :: c in cs && r in rs ==> Cr(c, r) in cr.ids
    ensures Units(BareCapacity(cr, cs, courses, rs, rooms)) == CapacityHardClauses(cr, cs, courses, rs, rooms)
  {
    if cs != [] {
      var init, c := cs[..|cs| - 1], cs[|cs| - 1];
      assert forall x :: x in init ==> x in cs;
      BareCapacityUnits(cr, init, courses, rs, rooms);
      BareCapacityRowUnits(cr, c, courses[c].numStudents, rs, rooms);
      UnitsAppend(BareCapacity(cr, init, courses, rs, rooms), BareCapacityRow(cr, c, courses[c].numStudents, rs, rooms));
    }
  }

  /** The older `room_capacity` yields something exactly when some course has more students than
      some room has seats. */
  lemma {:induction false} BareCapacityNonEmpty(cr: VarMap, cs: seq<CourseId>, courses: map<CourseId, Course>, rs: seq<RoomId>,
                                                rooms: map<RoomId, Room>)
    requires forall c :: c in cs ==> c in courses
    requires forall r :: r in rs ==> r in rooms
    requires forall c, r :: c in cs && r in rs ==> Cr(c, r) in cr.ids
    ensures BareCapacity(cr, cs, courses, rs, rooms) != []
        <==> exists c, r :: c in cs && r in rs && courses[c].numStudents > rooms[r].capacity
  {
    BareCapacityUnits(cr, cs, courses, rs, rooms);
    CapacityNonEmpty(cr, cs, courses, rs, rooms);
  }

  lemma {:induction false} CapacityRowNonEmpty(cr: VarMap, c: CourseId, ns: int, rs: seq<RoomId>, rooms: map<RoomId, Room>)
    requires forall r :: r in rs ==> r in rooms && Cr(c, r) in cr.ids
    ensures CapacityRow(cr, c, ns, rs, rooms) != [] <==> exists r :: r in rs && ns > rooms[r].capacity
  {
    if rs != [] {
      var init, r := rs[..|rs| - 1], rs[|rs| - 1];
      assert rs == init + [r];
      assert forall x :: x in init ==> x in rs;
      CapacityRowNonEmpty(cr, c, ns, init, rooms);
    }
  }

  lemma {:induction false} CapacityNonEmpty(cr: VarMap, cs: seq<CourseId>, courses: map<CourseId, Course>, rs: seq<RoomId>,
                                            rooms: map<RoomId, Room>)
    requires forall c :: c in cs ==> c in courses
    requires forall r :: r in rs ==> r in rooms
    requires forall c, r :: c in cs && r in rs ==> Cr(c, r) in cr.ids
    ensures CapacityHardClauses(cr, cs, courses, rs, rooms) != []
        <==> exists c, r :: c in cs && r in rs && courses[c].numStudents > rooms[r].capacity
  {
    if cs != [] {
      var init, c := cs[..|cs| - 1], cs[|cs| - 1];
      assert cs == init + [c];
      assert forall x :: x in init ==> x in cs;
      CapacityNonEmpty(cr, init, courses, rs, rooms);
      CapacityRowNonEmpty(cr, c, courses[c].numStudents, rs, rooms);
    }
  }

  // ---------------------------------------------------------------------
  // isolated_lectures (basic_encoder.py): a middle slot needs both neighbours

  /** The clause of curriculum k at slot h.  A middle slot is handled only when both neighbours are
      held with a nonzero id (`kh.get` and Python truthiness), and then lists both. */
  function IsolationBoth(kh: VarMap, k: CurriculumId, h: int, ppd: int): seq<Clause>
    requires ppd >= 1
  {
    if Kh(k, h) !in kh.ids then []
    else
      var lit := -kh.ids[Kh(k, h)];
      if IsFirstSlotOfDay(h, ppd) then
        (if Kh(k, h + 1) in kh.ids then [[lit, kh.ids[Kh(k, h + 1)]]] else [])
      else if IsLastSlotOfDay(h, ppd) then
        (if Kh(k, h - 1) in kh.ids then [[lit, kh.ids[Kh(k, h - 1)]]] else [])
      else if Kh(k, h - 1) in kh.ids && Kh(k, h + 1) in kh.ids && kh.ids[Kh(k, h - 1)] != 0 && kh.ids[Kh(k, h + 1)] != 0 then
        [[lit, kh.ids[Kh(k, h - 1)], kh.ids[Kh(k, h + 1)]]]
      else []
  }

  function IsolatedBothRow(kh: VarMap, k: CurriculumId, n: nat, ppd: int): seq<Clause>
    requires ppd >= 1
  {
    if n == 0 then [] else IsolatedBothRow(kh, k, n - 1, ppd) + IsolationBoth(kh, k, n - 1, ppd)
  }

  /** The clause list of the older `isolated_lectures`. */
  function IsolatedBothClauses(kh: VarMap, kids: seq<CurriculumId>, n: nat, ppd: int): seq<Clause>
    requires ppd >= 1
  {
    if kids == [] then [] else IsolatedBothClauses(kh, kids[..|kids| - 1], n, ppd) + IsolatedBothRow(kh, kids[|kids| - 1], n, ppd)
  }

  method IsolationBothAt(kh: VarMap, k: CurriculumId, h: int, ppd: int) returns (clauses: seq<Clause>)
    requires ppd >= 1
    ensures clauses == IsolationBoth(kh, k, h, ppd)
  {
    clauses := [];
    if Kh(k, h) in kh.ids {
      var lit := -kh.ids[Kh(k, h)];
      if h % ppd == 0 {
        if Kh(k, h + 1) in kh.ids {
          clauses := [[lit, kh.ids[Kh(k, h + 1)]]];
        }
      } else if (h + 1) % ppd == 0 {
        if Kh(k, h - 1) in kh.ids {
          clauses := [[lit, kh.ids[Kh(k, h - 1)]]];
        }
      } else {
        var prev := if Kh(k, h - 1) in kh.ids then kh.ids[Kh(k, h - 1)] else 0;
        var next := if Kh(k, h + 1) in kh.ids then kh.ids[Kh(k, h + 1)] else 0;
        if prev != 0 && next != 0 {
          clauses := [[lit, prev, next]];
        }
      }
    }
  }

  method IsolatedBothRowLoop(kh: VarMap, k: CurriculumId, n: nat, ppd: int) returns (clauses: seq<Clause>)
    requires ppd >= 1
    ensures clauses == IsolatedBothRow(kh, k, n, ppd)
  {
    clauses := [];
    var h := 0;
    while h < n
      invariant 0 <= h <= n
      invariant clauses == IsolatedBothRow(kh, k, h, ppd)
    {
      var cl := IsolationBothAt(kh, k, h, ppd);
      clauses := clauses + cl;
      h := h + 1;
    }
  }

  /** basic_encoder.py `isolated_lectures`: `kids` are the curricula in dictionary order. */
  method IsolatedLecturesBoth(kh: VarMap, kids: seq<CurriculumId>, ppd: int, n: nat) returns (clauses: seq<Clause>)
    requires ppd >= 1
    ensures clauses == IsolatedBothClauses(kh, kids, n, ppd)
  {
    clauses := [];
    var i := 0;
    while i < |kids|
      invariant 0 <= i <= |kids|
      invariant clauses == IsolatedBothClauses(kh, kids[..i], n, ppd)
    {
      assert kids[..i + 1][..i] == kids[..i];
      var row := IsolatedBothRowLoop(kh, kids[i], n, ppd);
      clauses := clauses + row;
      i := i + 1;
    }
    assert kids[..i] == kids;
  }

  /** Inside a full row of whole days, a middle slot has both neighbours, so the older rule and the
      complete encoder's rule give the same clause. */
  lemma IsolationBothAgrees(kh: VarMap, k: CurriculumId, h: int, ppd: int, days: nat)
    requires Positive(kh) && ppd >= 1 && FullRow(kh, k, days * ppd) && 0 <= h < days * ppd
    ensures IsolationBoth(kh, k, h, ppd) == Isolation(kh, k, h, ppd)
  {
    if !IsFirstSlotOfDay(h, ppd) && !IsLastSlotOfDay(h, ppd) {
      assert h != 0;
      assert h + 1 != days * ppd by {
        DivUnique(days * ppd, ppd, days, 0);
      }
      assert Kh(k, h - 1) in kh.ids && Kh(k, h + 1) in kh.ids;
      var nb := [Kh(k, h - 1), Kh(k, h + 1)];
      PresentAll(kh, nb);
      var ys := Present(kh, nb);
      assert ys == [kh.ids[Kh(k, h - 1)], kh.ids[Kh(k, h + 1)]];
      assert [-kh.ids[Kh(k, h)]] + ys == [-kh.ids[Kh(k, h)], kh.ids[Kh(k, h - 1)], kh.ids[Kh(k, h + 1)]];
    }
  }

  lemma {:induction false} IsolatedBothRowAgrees(kh: VarMap, k: CurriculumId, m: nat, ppd: int, days: nat)
    requires Positive(kh) && ppd >= 1 && FullRow(kh, k, days * ppd) && m <= days * ppd
    ensures IsolatedBothRow(kh, k, m, ppd) == IsolatedRow(kh, k, m, ppd)
  {
    if m > 0 {
      IsolatedBothRowAgrees(kh, k, m - 1, ppd, days);
      IsolationBothAgrees(kh, k, m - 1, ppd, days);
    }
  }

  /** When every curriculum holds all of its slots, the older `isolated_lectures` emits exactly the
      clause list of the complete encoder's `isolated_lectures_hard`. */
  lemma {:induction false} IsolatedBothAgrees(kh: VarMap, kids: seq<CurriculumId>, ppd: int, days: nat)
    requires Positive(kh) && ppd >= 1
    requires forall k :: k in kids ==> FullRow(kh, k, days * ppd)
    ensures IsolatedBothClauses(kh, kids, days * ppd, ppd) == IsolatedHardClauses(kh, kids, days * ppd, ppd)
  {
    if kids != [] {
      var init, k := kids[..|kids| - 1], kids[|kids| - 1];
      assert forall x :: x in init ==> x in kids;
      IsolatedBothAgrees(kh, init, ppd, days);
      IsolatedBothRowAgrees(kh, k, days * ppd, ppd, days);
    }
  }

  // ---------------------------------------------------------------------
  // number_of_lectures (basic_encoder.py): the set of slots, no course skipped

  /** `[ch[(c, h)] for h in hours]`, as the loop appends them. */
  function SlotLits(ch: VarMap, c: CourseId, hs: seq<int>): seq<int>
    requires forall h :: h in hs ==> Ch(c, h) in ch.ids
  {
    if hs == [] then [] else SlotLits(ch, c, hs[..|hs| - 1]) + [ch.ids[Ch(c, hs[|hs| - 1])]]
  }

  /** The requests of the older `number_of_lectures`: one per course, even with no literal. */
  function ListedLectureCalls(ch: VarMap, cs: seq<CourseId>, courses: map<CourseId, Course>, hs: seq<int>): seq<CardCall>
    requires forall c :: c in cs ==> c in courses
    requires forall c, h :: c in cs && h in hs ==> Ch(c, h) in ch.ids
  {
    if cs == [] then []
    else
      var c := cs[|cs| - 1];
      ListedLectureCalls(ch, cs[..|cs| - 1], courses, hs) + [CardCall(SlotLits(ch, c, hs), courses[c].numLectures)]
  }

  method SlotLitsLoop(ch: VarMap, c: CourseId, hs: seq<int>) returns (lits: seq<int>)
    requires forall h :: h in hs ==> Ch(c, h) in ch.ids
    ensures lits == SlotLits(ch, c, hs)
  {
    lits := [];
    var j := 0;
    while j < |hs|
      invariant 0 <= j <= |hs|
      invariant lits == SlotLits(ch, c, hs[..j])
    {
      assert hs[..j + 1][..j] == hs[..j];
      lits := lits + [ch.ids[Ch(c, hs[j])]];
      j := j + 1;
    }
    assert hs[..j] == hs;
  }

  /** basic_encoder.py `number_of_lectures`: `hs` is the set of slots of `ch`, in iteration order. */
  method NumberOfLecturesOver(lib: CardLib, cs: seq<CourseId>, courses: map<CourseId, Course>, ch: VarMap, hs: seq<int>,
                              pool: IdPool) returns (clauses: seq<Clause>)
    requires forall c :: c in cs ==> c in courses
    requires forall c, h :: c in cs && h in hs ==> Ch(c, h) in ch.ids
    modifies pool
    ensures CardOut(clauses, pool.top) == RunCalls(lib.equals, ListedLectureCalls(ch, cs, courses, hs), old(pool.top))
  {
    ghost var top0 := pool.top;
    clauses := [];
    var i := 0;
    while i < |cs|
      invariant 0 <= i <= |cs|
      invariant CardOut(clauses, pool.top) == RunCalls(lib.equals, ListedLectureCalls(ch, cs[..i], courses, hs), top0)
    {
      var c := cs[i];
      assert cs[..i + 1][..i] == cs[..i];
      var lits := SlotLitsLoop(ch, c, hs);
      ghost var prev := ListedLectureCalls(ch, cs[..i], courses, hs);
      ghost var call := CardCall(lits, courses[c].numLectures);
      assert ListedLectureCalls(ch, cs[..i + 1], courses, hs) == prev + [call];
      RunCallsSnoc(lib.equals, prev, call, top0);
      var out := lib.equals(lits, courses[c].numLectures, pool.top);
      clauses := clauses + out.clauses;
      pool.top := out.top;
      i := i + 1;
    }
    assert cs[..i] == cs;
  }

  lemma {:induction false} SlotLitsRange(ch: VarMap, c: CourseId, n: nat)
    requires forall h :: 0 <= h < n ==> Ch(c, h) in ch.ids
    ensures forall h :: h in Range(0, n) ==> Ch(c, h) in ch.ids
    ensures SlotLits(ch, c, Range(0, n)) == Present(ch, SlotRow(CH, c, n))
  {
    RangeMember(0, n);
    if n > 0 {
      SlotLitsRange(ch, c, n - 1);
      RangeMember(0, n - 1);
      SlotRowSpec(CH, c, n);
      assert SlotRow(CH, c, n) == SlotRow(CH, c, n - 1) + [Ch(c, n - 1)];
      PresentAppend(ch, SlotRow(CH, c, n - 1), [Ch(c, n - 1)]);
    }
  }

  lemma {:induction false} PresentAppend(m: VarMap, vs: seq<Var>, ws: seq<Var>)
    ensures Present(m, vs + ws) == Present(m, vs) + Present(m, ws)
  {
    if ws != [] {
      PresentAppend(m, vs, ws[..|ws| - 1]);
      assert (vs + ws)[..|vs + ws| - 1] == vs + ws[..|ws| - 1];
    } else {
      assert vs + ws == vs;
    }
  }

  /** Over the slots 0 .. n-1 of a full grid with n >= 1, the older `number_of_lectures` makes
      exactly the requests of the complete encoder's. */
  lemma {:induction false} ListedLectureCallsAgree(ch: VarMap, cs: seq<CourseId>, courses: map<CourseId, Course>, n: nat)
    requires n >= 1
    requires forall c :: c in cs ==> c in courses
    requires forall c, h :: c in cs && 0 <= h < n ==> Ch(c, h) in ch.ids
    ensures forall c, h :: c in cs && h in Range(0, n) ==> Ch(c, h) in ch.ids
    ensures ListedLectureCalls(ch, cs, courses, Range(0, n)) == LectureCalls(ch, cs, courses, n)
  {
    RangeMember(0, n);
    if cs != [] {
      var init, c := cs[..|cs| - 1], cs[|cs| - 1];
      assert forall x :: x in init ==> x in cs;
      ListedLectureCallsAgree(ch, init, courses, n);
      SlotLitsRange(ch, c, n);
      LectureLiterals(ch, c, n);
    }
  }
}
