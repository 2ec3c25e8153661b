/**
 * The four encoders of complete_encode.py (`encode_section_3`, `encode_section_4_1`,
 * `encode_section_4_2`, `encode_section_4_4`): a fresh pool, the problem variables, and
 * the generators in the order each encoder calls them.  Each encoder is specified by a
 * function of the instance, the allocated variables and the cardinality library; the
 * lemmas at the end relate the modes to each other.
 */
module Sections {
  import opened Seqs
  import opened Timetabling
  import opened Variables
  import opened Literals
  import opened Allocation
  import opened Relations
  import opened Clashes
  import opened Cardinality
  import opened Constraints

  /** What an encoder returns: hard clauses, weighted soft clauses, and the pool's top. */
  datatype Encoding = Encoding(hard: seq<Clause>, soft: seq<Weighted>, top: int)

  /** The allocated dictionaries have the families and ids the generators expect. */
  ghost predicate Shaped(inst: Instance, pv: ProblemVars) {
    && inst.Valid()
    && ChMap(pv.ch) && CdMap(pv.cd) && KhOver(pv.kh, inst.curricula)
    && Positive(pv.ch) && Positive(pv.cd) && Positive(pv.cr) && Positive(pv.kh) && Positive(pv.chr)
  }

  /** A densely allocated run of distinct keys from id 1 or above holds only positive ids. */
  lemma DenseAtPositive(m: VarMap, keys: seq<Var>, base: int)
    requires Distinct(keys) && DenseAt(m, keys, base) && base >= 1
    ensures m.Valid() && Positive(m)
    ensures forall v :: v in m.ids ==> v in keys
  {
    forall v | v in m.ids
      ensures m.ids[v] >= 1
    {
      var p :| 0 <= p < |keys| && keys[p] == v;
    }
  }

  /** A slot family allocated densely from id 1 or above holds only keys of that family, with positive ids. */
  lemma SlotFamilyShaped(m: VarMap, f: SlotFamily, xs: seq<string>, n: nat, keys: seq<Var>, base: int)
    requires Distinct(xs) && base >= 1 && keys == SlotGrid(f, xs, n) && m == Dense(keys, base)
    ensures m.Valid() && Positive(m)
    ensures forall v :: v in m.ids ==> exists x, i :: IsSlot(f, v, x, i) && x in xs && 0 <= i < n
    ensures forall x, i :: x in xs && 0 <= i < n ==> Slot(f, x, i) in m.ids
  {
    SlotGridDistinct(f, xs, n);
    DenseIsDenseAt(m, keys, base);
    DenseAtPositive(m, keys, base);
    SlotGridFamily(f, xs, n);
    SlotGridMembers(f, xs, n);
  }

  // Each family of a layout in turn; one family at a time keeps the other four out of the proof.

  lemma ChShaped(inst: Instance, pv: ProblemVars, k1: seq<Var>, k2: seq<Var>, k3: seq<Var>, k4: seq<Var>, k5: seq<Var>)
    requires inst.Valid() && LaidOut(pv, k1, k2, k3, k4, k5) && k1 == SlotGrid(CH, inst.courseIds, inst.TotalHours())
    ensures ChMap(pv.ch) && Positive(pv.ch)
  {
    var cs, n := inst.courseIds, inst.TotalHours();
    SlotFamilyShaped(pv.ch, CH, cs, n, k1, 1);
    forall v | v in pv.ch.ids
      ensures v.Ch?
    {
      var x, i :| IsSlot(CH, v, x, i) && x in cs && 0 <= i < n;
    }
  }

  lemma CdShaped(inst: Instance, pv: ProblemVars, k1: seq<Var>, k2: seq<Var>, k3: seq<Var>, k4: seq<Var>, k5: seq<Var>)
    requires inst.Valid() && LaidOut(pv, k1, k2, k3, k4, k5) && k2 == SlotGrid(CD, inst.courseIds, inst.numDays)
    ensures CdMap(pv.cd) && Positive(pv.cd)
  {
    var cs, days := inst.courseIds, inst.numDays;
    SlotFamilyShaped(pv.cd, CD, cs, days, k2, 1 + |k1|);
    forall v | v in pv.cd.ids
      ensures v.Cd?
    {
      var x, i :| IsSlot(CD, v, x, i) && x in cs && 0 <= i < days;
    }
  }

  lemma CrShaped(inst: Instance, pv: ProblemVars, k1: seq<Var>, k2: seq<Var>, k3: seq<Var>, k4: seq<Var>, k5: seq<Var>)
    requires inst.Valid() && LaidOut(pv, k1, k2, k3, k4, k5) && k3 == CrGrid(inst.courseIds, inst.roomIds)
    ensures Positive(pv.cr)
  {
    CrGridDistinct(inst.courseIds, inst.roomIds);
    DenseIsDenseAt(pv.cr, k3, 1 + |k1| + |k2|);
    DenseAtPositive(pv.cr, k3, 1 + |k1| + |k2|);
  }

  lemma KhShaped(inst: Instance, pv: ProblemVars, k1: seq<Var>, k2: seq<Var>, k3: seq<Var>, k4: seq<Var>, k5: seq<Var>)
    requires inst.Valid() && LaidOut(pv, k1, k2, k3, k4, k5) && k4 == SlotGrid(KH, inst.curriculumIds, inst.TotalHours())
    ensures KhOver(pv.kh, inst.curricula) && Positive(pv.kh)
    ensures forall k :: k in inst.curriculumIds ==> FullRow(pv.kh, k, inst.TotalHours())
  {
    var ks, n, m := inst.curriculumIds, inst.TotalHours(), pv.kh;
    SlotFamilyShaped(m, KH, ks, n, k4, 1 + |k1| + |k2| + |k3|);
    forall v | v in m.ids
      ensures v.Kh? && v.k in inst.curricula
    {
      var x, i :| IsSlot(KH, v, x, i) && x in ks && 0 <= i < n;
    }
    forall k, h | k in ks && 0 <= h < n
      ensures Kh(k, h) in m.ids
    {
      assert Slot(KH, k, h) in m.ids;
    }
  }

  lemma ChrShaped(inst: Instance, pv: ProblemVars, withChr: bool,
                  k1: seq<Var>, k2: seq<Var>, k3: seq<Var>, k4: seq<Var>, k5: seq<Var>)
    requires inst.Valid() && LaidOut(pv, k1, k2, k3, k4, k5)
    requires k5 == ChrKeys(inst.courseIds, inst.TotalHours(), inst.roomIds, withChr)
    ensures Positive(pv.chr)
  {
    if withChr {
      ChrGridSpec(inst.courseIds, inst.TotalHours(), inst.roomIds);
    }
    var base := 1 + |k1| + |k2| + |k3| + |k4|;
    DenseIsDenseAt(pv.chr, k5, base);
    DenseAtPositive(pv.chr, k5, base);
  }

  /** The section layout gives each family its own kind of key and positive ids, and the curriculum
      dictionary holds every (curriculum, slot) key. */
  lemma LayoutShaped(inst: Instance, pv: ProblemVars, withChr: bool)
    requires inst.Valid()
    requires IsLayout(pv, inst.courseIds, inst.curriculumIds, inst.roomIds, inst.TotalHours(), inst.numDays, withChr)
    ensures Shaped(inst, pv)
    ensures forall k :: k in inst.curriculumIds ==> FullRow(pv.kh, k, inst.TotalHours())
  {
    var cs, ks, rs, n := inst.courseIds, inst.curriculumIds, inst.roomIds, inst.TotalHours();
    var k1, k2, k3, k4, k5 := SlotGrid(CH, cs, n), SlotGrid(CD, cs, inst.numDays), CrGrid(cs, rs), SlotGrid(KH, ks, n),
                              ChrKeys(cs, n, rs, withChr);
    ChShaped(inst, pv, k1, k2, k3, k4, k5);
    CdShaped(inst, pv, k1, k2, k3, k4, k5);
    CrShaped(inst, pv, k1, k2, k3, k4, k5);
    KhShaped(inst, pv, k1, k2, k3, k4, k5);
    ChrShaped(inst, pv, withChr, k1, k2, k3, k4, k5);
  }

  // ---------------------------------------------------------------------
  // The clause lists of the four modes

  /** The six generators every SAT-style mode (3, 4.1, 4.2) starts with. */
  function BasicHard(inst: Instance, pv: ProblemVars): seq<Clause>
    requires Shaped(inst, pv)
  {
    var n, ppd := inst.TotalHours(), inst.periodsPerDay;
    ChCdClauses(pv.ch, pv.cd, ppd)
      + ChKhClauses(pv.ch, pv.kh, inst.curriculumIds, inst.curricula)
      + CurriculumClashesClauses(pv.ch, inst.curriculumIds, inst.curricula, n)
      + TeacherClashesClauses(pv.ch, inst.courseIds, inst.courses, n)
      + RoomClashesBasicClauses(Dicts(pv.ch, pv.cr, VarMap([], map[])), inst.courseIds, inst.roomIds, n)
      + AvailabilityClauses(pv.ch, inst.unavailabilities, ppd)
  }

  /** The hard clauses of section 4.2: the basic ones, lecture counts, capacity and stability. */
  function Hard42(lib: CardLib, inst: Instance, pv: ProblemVars): CardOut
    requires Shaped(inst, pv)
  {
    var lec := RunCalls(lib.equals, LectureCalls(pv.ch, inst.courseIds, inst.courses, inst.TotalHours()), pv.top);
    var stab := RunCalls(lib.equals, StabilityCalls(pv.cr, inst.courseIds, inst.roomIds), lec.top);
    CardOut(BasicHard(inst, pv) + lec.clauses + CapacityHardClauses(pv.cr, inst.courseIds, inst.courses, inst.roomIds, inst.rooms)
              + stab.clauses,
            stab.top)
  }

  /** The hard clauses of section 4.1: those of 4.2 and the minimum working days. */
  function Hard41(lib: CardLib, inst: Instance, pv: ProblemVars): CardOut
    requires Shaped(inst, pv)
  {
    var prev := Hard42(lib, inst, pv);
    var md := RunCalls(lib.atLeast, MinDaysCalls(pv.cd, inst.courseIds, inst.courses, inst.numDays), prev.top);
    CardOut(prev.clauses + md.clauses, md.top)
  }

  /** `isolated_lectures_hard` over the instance's curricula. */
  function Isolated(inst: Instance, pv: ProblemVars): seq<Clause>
    requires Shaped(inst, pv)
  {
    IsolatedHardClauses(pv.kh, inst.curriculumIds, inst.TotalHours(), inst.periodsPerDay)
  }

  function Section3(lib: CardLib, inst: Instance, pv: ProblemVars): Encoding
    requires Shaped(inst, pv)
  {
    var h := Hard41(lib, inst, pv);
    Encoding(h.clauses + Isolated(inst, pv), [], h.top)
  }

  function Section41(lib: CardLib, inst: Instance, pv: ProblemVars): Encoding
    requires Shaped(inst, pv)
  {
    var h := Hard41(lib, inst, pv);
    Encoding(h.clauses, Weigh(2, Isolated(inst, pv)), h.top)
  }

  function Section42(lib: CardLib, inst: Instance, pv: ProblemVars): Encoding
    requires Shaped(inst, pv)
  {
    var h := Hard42(lib, inst, pv);
    var md := MinDaysSoft(lib, pv.cd, inst.courseIds, inst.courses, inst.numDays, h.top);
    Encoding(h.clauses, Weigh(2, Isolated(inst, pv)) + md.soft, md.top)
  }

  /** The hard clauses of section 4.4 up to the lecture counts, and the pool's top there. */
  function Hard44(lib: CardLib, inst: Instance, pv: ProblemVars): CardOut
    requires Shaped(inst, pv)
  {
    var n, ppd, cs, rs := inst.TotalHours(), inst.periodsPerDay, inst.courseIds, inst.roomIds;
    var lec := RunCalls(lib.equals, LectureCalls(pv.ch, cs, inst.courses, n), pv.top);
    CardOut(ChCdClauses(pv.ch, pv.cd, ppd)
              + ChKhClauses(pv.ch, pv.kh, inst.curriculumIds, inst.curricula)
              + ChChrClauses(pv.ch, pv.chr, cs, rs, n)
              + CrChrClauses(pv.cr, pv.chr, cs, rs, n)
              + CurriculumClashesClauses(pv.ch, inst.curriculumIds, inst.curricula, n)
              + TeacherClashesClauses(pv.ch, cs, inst.courses, n)
              + RoomClashesCompleteClauses(Dicts(VarMap([], map[]), VarMap([], map[]), pv.chr), cs, rs, n)
              + AvailabilityClauses(pv.ch, inst.unavailabilities, ppd)
              + lec.clauses,
            lec.top)
  }

  /** The soft list of section 4.4 from the pool top `top`, and the room-stability totalizer's
      own clauses, which the source builds and then drops. */
  function Soft44(lib: CardLib, inst: Instance, pv: ProblemVars, top: int): SoftOut
    requires Shaped(inst, pv)
  {
    var n, cs, rs := inst.TotalHours(), inst.courseIds, inst.roomIds;
    var stab := StabilitySoft(lib, pv.cr, cs, rs, top);
    var md := MinDaysSoft(lib, pv.cd, cs, inst.courses, inst.numDays, stab.top);
    SoftOut(CapacitySoftClauses(pv.chr, cs, inst.courses, rs, inst.rooms, n) + stab.soft + md.soft + Weigh(2, Isolated(inst, pv)),
            stab.hard, md.top)
  }

  /** Section 4.4 as written: the totalizer clauses of the room-stability penalty are not kept. */
  function Section44(lib: CardLib, inst: Instance, pv: ProblemVars): Encoding
    requires Shaped(inst, pv)
  {
    var h := Hard44(lib, inst, pv);
    var s := Soft44(lib, inst, pv, h.top);
    Encoding(h.clauses, s.soft, s.top)
  }

  /** Section 4.4 with the room-stability totalizer's clauses kept as hard clauses, so that its
      outputs count the rooms a course uses (see `Cardinality.StabilityCost`). */
  function Section44Corrected(lib: CardLib, inst: Instance, pv: ProblemVars): Encoding
    requires Shaped(inst, pv)
  {
    var h := Hard44(lib, inst, pv);
    var s := Soft44(lib, inst, pv, h.top);
    Encoding(h.clauses + s.hard, s.soft, s.top)
  }

  // ---------------------------------------------------------------------
  // The encoders

  /** The generators shared by sections 3, 4.1 and 4.2, in their order. */
  method EncodeBasic(inst: Instance, pv: ProblemVars) returns (hard: seq<Clause>)
    requires Shaped(inst, pv)
    ensures hard == BasicHard(inst, pv)
  {
    var n, ppd := inst.TotalHours(), inst.periodsPerDay;
    hard := RelationChCd(pv.ch, pv.cd, ppd);
    var cls := RelationChKh(pv.ch, pv.kh, inst.curriculumIds, inst.curricula);
    hard := hard + cls;
    cls := CurriculumClashes(pv.ch, inst.curriculumIds, inst.curricula, n);
    hard := hard + cls;
    cls := TeacherClashes(inst.courseIds, inst.courses, pv.ch, n);
    hard := hard + cls;
    cls := RoomClashesBasic(pv.ch, pv.cr, inst.courseIds, inst.roomIds, n);
    hard := hard + cls;
    cls := TimeSlotAvailability(pv.ch, inst.unavailabilities, ppd);
    hard := hard + cls;
  }

  /** The hard part of section 4.2, threading the pool through the cardinality calls. */
  method EncodeHard42(lib: CardLib, inst: Instance, pv: ProblemVars, pool: IdPool) returns (hard: seq<Clause>)
    requires Shaped(inst, pv) && pool.top == pv.top
    modifies pool
    ensures CardOut(hard, pool.top) == Hard42(lib, inst, pv)
  {
    hard := EncodeBasic(inst, pv);
    var cls := NumberOfLectures(lib, inst.courseIds, inst.courses, pv.ch, inst.TotalHours(), pool);
    hard := hard + cls;
    cls := RoomCapacityHard(inst.courseIds, inst.courses, inst.roomIds, inst.rooms, pv.cr);
    hard := hard + cls;
    cls := RoomStabilityHard(lib, inst.courseIds, inst.roomIds, pv.cr, pool);
    hard := hard + cls;
  }

  method EncodeHard41(lib: CardLib, inst: Instance, pv: ProblemVars, pool: IdPool) returns (hard: seq<Clause>)
    requires Shaped(inst, pv) && pool.top == pv.top
    modifies pool
    ensures CardOut(hard, pool.top) == Hard41(lib, inst, pv)
  {
    hard := EncodeHard42(lib, inst, pv, pool);
    var cls := MinWorkingDaysHard(lib, inst.courseIds, inst.courses, pv.cd, inst.numDays, pool);
    hard := hard + cls;
  }

  /** complete_encode.py `encode_section_3`: everything hard. */
  method EncodeSection3(lib: CardLib, inst: Instance) returns (pv: ProblemVars, enc: Encoding)
    requires inst.Valid()
    ensures IsLayout(pv, inst.courseIds, inst.curriculumIds, inst.roomIds, inst.TotalHours(), inst.numDays, false)
    ensures Shaped(inst, pv) && enc == Section3(lib, inst, pv)
  {
    var pool := new IdPool(1);
    pv := GetProblemVars(inst, pool, false);
    LayoutShaped(inst, pv, false);
    var hard := EncodeHard41(lib, inst, pv, pool);
    var iso := IsolatedLecturesHard(pv.kh, inst.curriculumIds, inst.periodsPerDay, inst.TotalHours());
    enc := Encoding(hard + iso, [], pool.top);
  }

  /** complete_encode.py `encode_section_4_1`: isolated lectures become weight-2 soft clauses. */
  method EncodeSection41(lib: CardLib, inst: Instance) returns (pv: ProblemVars, enc: Encoding)
    requires inst.Valid()
    ensures IsLayout(pv, inst.courseIds, inst.curriculumIds, inst.roomIds, inst.TotalHours(), inst.numDays, false)
    ensures Shaped(inst, pv) && enc == Section41(lib, inst, pv)
  {
    var pool := new IdPool(1);
    pv := GetProblemVars(inst, pool, false);
    LayoutShaped(inst, pv, false);
    var hard := EncodeHard41(lib, inst, pv, pool);
    var soft := IsolatedLecturesSoft(pv.kh, inst.curriculumIds, inst.periodsPerDay, inst.TotalHours());
    enc := Encoding(hard, soft, pool.top);
  }

  /** complete_encode.py `encode_section_4_2`: minimum working days become weight-5 soft clauses too. */
  method EncodeSection42(lib: CardLib, inst: Instance) returns (pv: ProblemVars, enc: Encoding)
    requires inst.Valid()
    ensures IsLayout(pv, inst.courseIds, inst.curriculumIds, inst.roomIds, inst.TotalHours(), inst.numDays, false)
    ensures Shaped(inst, pv) && enc == Section42(lib, inst, pv)
  {
    var pool := new IdPool(1);
    pv := GetProblemVars(inst, pool, false);
    LayoutShaped(inst, pv, false);
    var hard := EncodeHard42(lib, inst, pv, pool);
    var soft := IsolatedLecturesSoft(pv.kh, inst.curriculumIds, inst.periodsPerDay, inst.TotalHours());
    var md := MinWorkingDaysSoft(lib, inst.courseIds, inst.courses, pv.cd, inst.numDays, pool);
    enc := Encoding(hard, soft + md, pool.top);
  }

  /** complete_encode.py `encode_section_4_4`: room variables per slot, and capacity, stability,
      working days and isolated lectures all soft. */
  method EncodeSection44(lib: CardLib, inst: Instance) returns (pv: ProblemVars, enc: Encoding)
    requires inst.Valid()
    ensures IsLayout(pv, inst.courseIds, inst.curriculumIds, inst.roomIds, inst.TotalHours(), inst.numDays, true)
    ensures Shaped(inst, pv) && enc == Section44(lib, inst, pv)
  {
    var n, ppd, cs, rs := inst.TotalHours(), inst.periodsPerDay, inst.courseIds, inst.roomIds;
    var pool := new IdPool(1);
    pv := GetProblemVars(inst, pool, true);
    LayoutShaped(inst, pv, true);
    var hard := RelationChCd(pv.ch, pv.cd, ppd);
    var cls := RelationChKh(pv.ch, pv.kh, inst.curriculumIds, inst.curricula);
    hard := hard + cls;
    cls := RelationChChr(pv.ch, pv.chr, cs, rs, n);
    hard := hard + cls;
    cls := RelationCrChr(pv.cr, pv.chr, cs, rs, n);
    hard := hard + cls;
    cls := CurriculumClashes(pv.ch, inst.curriculumIds, inst.curricula, n);
    hard := hard + cls;
    cls := TeacherClashes(cs, inst.courses, pv.ch, n);
    hard := hard + cls;
    cls := RoomClashesComplete(pv.chr, cs, rs, n);
    hard := hard + cls;
    cls := TimeSlotAvailability(pv.ch, inst.unavailabilities, ppd);
    hard := hard + cls;
    cls := NumberOfLectures(lib, cs, inst.courses, pv.ch, n, pool);
    hard := hard + cls;
    var soft := RoomCapacitySoftChr(cs, inst.courses, rs, inst.rooms, pv.chr, n);
    var stabSoft, stabHard := RoomStabilitySoft(lib, cs, rs, pv.cr, pool);
    soft := soft + stabSoft;
    var md := MinWorkingDaysSoft(lib, cs, inst.courses, pv.cd, inst.numDays, pool);
    soft := soft + md;
    var iso := IsolatedLecturesSoft(pv.kh, inst.curriculumIds, ppd, n);
    soft := soft + iso;
    enc := Encoding(hard, soft, pool.top);
  }

  // ---------------------------------------------------------------------
  // How the modes relate

  /** Section 4.1 relaxes section 3 and nothing else: an assignment satisfies section 3 exactly when
      it satisfies the hard part of 4.1 at zero soft cost; the pool ends at the same top. */
  lemma Section3Is41AtZeroCost(lib: CardLib, inst: Instance, pv: ProblemVars, a: set<int>)
    requires Shaped(inst, pv)
    ensures Section3(lib, inst, pv).soft == [] && Section3(lib, inst, pv).top == Section41(lib, inst, pv).top
    ensures Sat(a, Section3(lib, inst, pv).hard)
        <==> Sat(a, Section41(lib, inst, pv).hard) && Cost(a, Section41(lib, inst, pv).soft) == 0
  {
    var h := Hard41(lib, inst, pv);
    SatAppend(a, h.clauses, Isolated(inst, pv));
    IsolatedSoftCost(a, pv.kh, inst.curriculumIds, inst.TotalHours(), inst.periodsPerDay);
  }

  /** Keeping the room-stability totalizer's clauses changes nothing but the hard list: an
      assignment satisfies the corrected section 4.4 exactly when it satisfies section 4.4 as
      written and every totalizer clause, and the soft list and the pool's top are the same. */
  lemma Section44KeepsTotalizers(lib: CardLib, inst: Instance, pv: ProblemVars, a: set<int>)
    requires Shaped(inst, pv)
    ensures Section44Corrected(lib, inst, pv).soft == Section44(lib, inst, pv).soft
    ensures Section44Corrected(lib, inst, pv).top == Section44(lib, inst, pv).top
    ensures var stab := StabilitySoft(lib, pv.cr, inst.courseIds, inst.roomIds, Hard44(lib, inst, pv).top);
      Sat(a, Section44Corrected(lib, inst, pv).hard) <==> Sat(a, Section44(lib, inst, pv).hard) && Sat(a, stab.hard)
  {
    var h := Hard44(lib, inst, pv);
    SatAppend(a, h.clauses, Soft44(lib, inst, pv, h.top).hard);
  }

  /** Section 4.2 relaxes section 4.1 further: every assignment satisfying 4.1's hard clauses satisfies
      4.2's, and 4.2's soft cost is 4.1's plus the working-day penalty. */
  lemma Section42Relaxes41(lib: CardLib, inst: Instance, pv: ProblemVars, a: set<int>)
    requires Shaped(inst, pv)
    ensures Sat(a, Section41(lib, inst, pv).hard) ==> Sat(a, Section42(lib, inst, pv).hard)
    ensures Cost(a, Section42(lib, inst, pv).soft)
         == Cost(a, Section41(lib, inst, pv).soft)
            + Cost(a, MinDaysSoft(lib, pv.cd, inst.courseIds, inst.courses, inst.numDays, Hard42(lib, inst, pv).top).soft)
  {
    var h := Hard42(lib, inst, pv);
    var md := RunCalls(lib.atLeast, MinDaysCalls(pv.cd, inst.courseIds, inst.courses, inst.numDays), h.top);
    SatAppend(a, h.clauses, md.clauses);
    CostAppend(a, Weigh(2, Isolated(inst, pv)), MinDaysSoft(lib, pv.cd, inst.courseIds, inst.courses, inst.numDays, h.top).soft);
  }
}
