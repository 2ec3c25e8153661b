/**
 * The assembly functions of the two earlier encoders: basic_encoder.py `encoder` (all
 * generators, then one clause list for MaxSAT or a hard/soft pair for partial MaxSAT) and
 * encoder.py `encoder` (the relations and the two pairwise clash generators only).
 *
 * The encoders are modelled as written: their `teacher_clashes` pairs positions of the
 * instance-wide course list, and basic_encoder.py's `room_capacity` puts bare literals where
 * clauses belong.  Beside them stand the lists with both corrections (`DraftCorrected`,
 * `CorrectedHard`): the lemmas at the end show that the corrected older encoder asks of an
 * assignment exactly what section 3 of the complete encoder asks, with the same pool top,
 * whenever the instance has a slot and every curriculum has a course, and that the written
 * lists differ from the corrected ones in those two places only.
 */
module BasicAssembly {
  import opened Seqs
  import opened Timetabling
  import opened Variables
  import opened Literals
  import opened Allocation
  import opened Relations
  import opened Clashes
  import opened Cardinality
  import opened Constraints
  import opened Sections
  import opened BasicGenerators
  import opened BasicConstraints

  // ---------------------------------------------------------------------
  // What the encoder needs of the instance and of the allocated dictionaries

  /** The instance shape the unchecked lookups of encoder.py need: every course a curriculum
      lists is a course (looked up in `relation_ch_kh` once there is a slot). */
  ghost predicate DraftWellFormed(inst: Instance) {
    && inst.Valid()
    && (inst.TotalHours() > 0 ==>
          forall k, c :: k in inst.curricula && c in inst.curricula[k].courses ==> c in inst.courses)
  }

  /** basic_encoder.py also reads the unavailabilities: each must name a course and a slot of the
      grid (`time_slot_availability`). */
  ghost predicate WellFormed(inst: Instance) {
    && DraftWellFormed(inst)
    && (forall u :: u in inst.unavailabilities ==>
          u.courseId in inst.courses && 0 <= UnavailableSlot(u, inst.periodsPerDay) < inst.TotalHours())
  }

  /** The allocated dictionaries hold every key encoder.py's generators look up without checking. */
  ghost predicate DraftReady(inst: Instance, pv: ProblemVars) {
    && Shaped(inst, pv)
    && FullGrid(inst, pv)
    && (forall k :: k in inst.curriculumIds ==> FullRow(pv.kh, k, inst.TotalHours()))
    && (forall v :: v in pv.kh.ids ==> v.Kh? && 0 <= v.h < inst.TotalHours())
    && CurriculumLookups(pv.ch, pv.kh, inst.curricula)
  }

  /** ... and the keys basic_encoder.py's `time_slot_availability` looks up. */
  ghost predicate Ready(inst: Instance, pv: ProblemVars) {
    && DraftReady(inst, pv)
    && (forall u :: u in inst.unavailabilities ==> Ch(u.courseId, UnavailableSlot(u, inst.periodsPerDay)) in pv.ch.ids)
  }

  /** The dictionaries of `get_ch` .. `get_kh` are ready for encoder.py's generators. */
  lemma DraftReadyFromLayout(inst: Instance, pv: ProblemVars)
    requires DraftWellFormed(inst)
    requires IsLayout(pv, inst.courseIds, inst.curriculumIds, inst.roomIds, inst.TotalHours(), inst.numDays, false)
    ensures DraftReady(inst, pv)
  {
    LayoutFull(inst, pv);
    KhInGrid(inst, pv);
    CurriculumLookupsFromGrid(inst, pv);
  }

  /** The dictionaries of `get_ch` .. `get_kh` on a well-formed instance are ready. */
  lemma ReadyFromLayout(inst: Instance, pv: ProblemVars)
    requires WellFormed(inst)
    requires IsLayout(pv, inst.courseIds, inst.curriculumIds, inst.roomIds, inst.TotalHours(), inst.numDays, false)
    ensures Ready(inst, pv)
  {
    DraftReadyFromLayout(inst, pv);
    LookupsFromGrid(inst, pv);
  }

  /** `get_kh` makes only keys of the grid's slots. */
  lemma KhInGrid(inst: Instance, pv: ProblemVars)
    requires inst.Valid()
    requires IsLayout(pv, inst.courseIds, inst.curriculumIds, inst.roomIds, inst.TotalHours(), inst.numDays, false)
    ensures forall v :: v in pv.kh.ids ==> v.Kh? && 0 <= v.h < inst.TotalHours()
  {
    var cs, ks, rs, n := inst.courseIds, inst.curriculumIds, inst.roomIds, inst.TotalHours();
    KhRunInGrid(pv, ks, n, SlotGrid(CH, cs, n), SlotGrid(CD, cs, inst.numDays), CrGrid(cs, rs), SlotGrid(KH, ks, n));
  }

  lemma KhRunInGrid(pv: ProblemVars, ks: seq<CurriculumId>, n: nat, k1: seq<Var>, k2: seq<Var>, k3: seq<Var>, k4: seq<Var>)
    requires Distinct(ks) && LaidOut(pv, k1, k2, k3, k4, []) && k4 == SlotGrid(KH, ks, n)
    ensures forall v :: v in pv.kh.ids ==> v.Kh? && 0 <= v.h < n
  {
    SlotFamilyShaped(pv.kh, KH, ks, n, k4, 1 + |k1| + |k2| + |k3|);
    forall v | v in pv.kh.ids
      ensures v.Kh? && 0 <= v.h < n
    {
      var x, i :| IsSlot(KH, v, x, i) && x in ks && 0 <= i < n;
    }
  }

  /** On the full grid, the lookups of `relation_ch_kh` and `time_slot_availability` find their keys. */
  lemma LookupsFromGrid(inst: Instance, pv: ProblemVars)
    requires WellFormed(inst) && Shaped(inst, pv) && FullGrid(inst, pv)
    requires forall v :: v in pv.kh.ids ==> v.Kh? && 0 <= v.h < inst.TotalHours()
    ensures CurriculumLookups(pv.ch, pv.kh, inst.curricula)
    ensures forall u :: u in inst.unavailabilities ==> Ch(u.courseId, UnavailableSlot(u, inst.periodsPerDay)) in pv.ch.ids
  {
    CurriculumLookupsFromGrid(inst, pv);
    forall u | u in inst.unavailabilities
      ensures Ch(u.courseId, UnavailableSlot(u, inst.periodsPerDay)) in pv.ch.ids
    {
      assert u.courseId in inst.courseIds;
    }
  }

  /** On the full grid, the lookups of `relation_ch_kh` find their keys. */
  lemma CurriculumLookupsFromGrid(inst: Instance, pv: ProblemVars)
    requires DraftWellFormed(inst) && Shaped(inst, pv) && FullGrid(inst, pv)
    requires forall v :: v in pv.kh.ids ==> v.Kh? && 0 <= v.h < inst.TotalHours()
    ensures CurriculumLookups(pv.ch, pv.kh, inst.curricula)
  {
    forall v, c | v in pv.kh.ids && c in inst.curricula[v.k].courses
      ensures Ch(c, v.h) in pv.ch.ids
    {
      assert c in inst.courses;
    }
  }

  // ---------------------------------------------------------------------
  // The slot set `{h for (c, h) in ch.keys()}`

  /** The slots of `ch`, as `room_clashes` and `number_of_lectures` iterate them: ascending. */
  function SlotHours(inst: Instance): (hs: seq<int>)
    ensures Distinct(hs)
    ensures forall i, j :: 0 <= i < j < |hs| ==> hs[i] < hs[j]
    ensures forall h :: h in hs <==> inst.courseIds != [] && 0 <= h < inst.TotalHours()
  {
    RangeShape(0, inst.TotalHours());
    RangeMember(0, inst.TotalHours());
    if inst.courseIds == [] then [] else Range(0, inst.TotalHours())
  }

  /** A slot is in the slot set exactly when some key of `ch` names it. */
  lemma SlotHoursAreKeySlots(inst: Instance, pv: ProblemVars)
    requires Ready(inst, pv)
    ensures forall h :: h in SlotHours(inst) <==> exists v :: v in pv.ch.ids && v.h == h
  {
    forall h | h in SlotHours(inst)
      ensures exists v :: v in pv.ch.ids && v.h == h
    {
      assert Ch(inst.courseIds[0], h) in pv.ch.ids;
    }
  }

  // ---------------------------------------------------------------------
  // The clause lists

  /** `relation_ch_cd`, `relation_ch_kh` and `curriculum_clashes`: the generators both older
      encoders start with. */
  function DraftPrefix(inst: Instance, pv: ProblemVars): seq<Clause>
    requires DraftReady(inst, pv)
  {
    assert forall v :: v in pv.ch.keys ==> v in pv.ch.ids;
    ChCdClauses(pv.ch, pv.cd, inst.periodsPerDay)
      + ListedChKhClauses(pv.ch, pv.kh, inst.curriculumIds, inst.curricula)
      + ListedCurriculumClashes(pv.ch, inst.curriculumIds, inst.curricula, HoursOf(pv.ch.keys))
  }

  /** encoder.py `encoder`: the two relations and the two pairwise clash generators, with
      `teacher_clashes` as written. */
  function DraftClauses(inst: Instance, pv: ProblemVars): seq<Clause>
    requires DraftReady(inst, pv)
  {
    DraftPrefix(inst, pv) + TeacherClashesAsWritten(pv.ch, inst.courseIds, inst.courses)
  }

  /** The same list with `teacher_clashes` pairing each teacher's own courses. */
  function DraftCorrected(inst: Instance, pv: ProblemVars): seq<Clause>
    requires DraftReady(inst, pv)
  {
    DraftPrefix(inst, pv) + TeacherClashesClauses(pv.ch, inst.courseIds, inst.courses, inst.TotalHours())
  }

  /** `room_clashes`, `time_slot_availability` and `number_of_lectures` of basic_encoder.py, the
      pool starting at the last variable id. */
  function HardMiddle(lib: CardLib, inst: Instance, pv: ProblemVars): CardOut
    requires Ready(inst, pv)
  {
    var cs := inst.courseIds;
    var lec := RunCalls(lib.equals, ListedLectureCalls(pv.ch, cs, inst.courses, SlotHours(inst)), pv.top);
    CardOut(RoomClashesByHour(Dicts(pv.ch, pv.cr, VarMap([], map[])), cs, inst.roomIds, SlotHours(inst))
              + AvailabilityClauses(pv.ch, inst.unavailabilities, inst.periodsPerDay)
              + lec.clauses,
            lec.top)
  }

  /** The hard list of basic_encoder.py `encoder` up to `number_of_lectures`, and the pool's top there. */
  function HardBefore(lib: CardLib, inst: Instance, pv: ProblemVars): CardOut
    requires Ready(inst, pv)
  {
    var mid := HardMiddle(lib, inst, pv);
    CardOut(DraftClauses(inst, pv) + mid.clauses, mid.top)
  }

  /** `room_stability`'s requests, the pool starting at `top`. */
  function Stability(lib: CardLib, inst: Instance, pv: ProblemVars, top: int): CardOut
    requires Ready(inst, pv)
  {
    RunCalls(lib.equals, StabilityCalls(pv.cr, inst.courseIds, inst.roomIds), top)
  }

  /** An element of basic_encoder.py's `hard_clauses`: a clause, or a bare literal that
      `room_capacity` puts where a clause belongs. */
  datatype Entry = Listed(clause: Clause) | Bare(lit: int)

  function AsEntries(cls: seq<Clause>): seq<Entry> {
    seq(|cls|, i requires 0 <= i < |cls| => Listed(cls[i]))
  }

  function BareEntries(lits: seq<int>): seq<Entry> {
    seq(|lits|, i requires 0 <= i < |lits| => Bare(lits[i]))
  }

  /** The clause an entry was meant to be: a bare literal as a unit clause. */
  function Wrap(e: Entry): Clause {
    match e
    case Listed(cl) => cl
    case Bare(lit) => [lit]
  }

  function WrapAll(es: seq<Entry>): seq<Clause> {
    seq(|es|, i requires 0 <= i < |es| => Wrap(es[i]))
  }

  /** A list of entries and the pool's top. */
  datatype EntriesOut = EntriesOut(entries: seq<Entry>, top: int)

  /** The hard list of basic_encoder.py `encoder` as written: `hard_clauses.extend(room_capacity(...))`
      appends the capacity literals themselves. */
  function EncoderHard(lib: CardLib, inst: Instance, pv: ProblemVars): EntriesOut
    requires Ready(inst, pv)
  {
    var before := HardBefore(lib, inst, pv);
    var stab := Stability(lib, inst, pv, before.top);
    EntriesOut(AsEntries(before.clauses) + BareEntries(BareCapacity(pv.cr, inst.courseIds, inst.courses, inst.roomIds, inst.rooms))
                 + AsEntries(stab.clauses),
               stab.top)
  }

  /** The hard list with both corrections: each teacher's own courses paired, and the capacity
      literals as unit clauses. */
  function CorrectedHard(lib: CardLib, inst: Instance, pv: ProblemVars): CardOut
    requires Ready(inst, pv)
  {
    var mid := HardMiddle(lib, inst, pv);
    var stab := Stability(lib, inst, pv, mid.top);
    CardOut(DraftCorrected(inst, pv) + mid.clauses + Units(BareCapacity(pv.cr, inst.courseIds, inst.courses, inst.roomIds, inst.rooms))
              + stab.clauses,
            stab.top)
  }

  /** The soft list of basic_encoder.py `encoder`, the pool starting at `top`. */
  function EncoderSoft(lib: CardLib, inst: Instance, pv: ProblemVars, top: int): CardOut
    requires Ready(inst, pv)
  {
    var md := RunCalls(lib.atLeast, MinDaysCalls(pv.cd, inst.courseIds, inst.courses, inst.numDays), top);
    CardOut(md.clauses + IsolatedBothClauses(pv.kh, inst.curriculumIds, inst.TotalHours(), inst.periodsPerDay), md.top)
  }

  /** What basic_encoder.py `encoder` returns, with the pool reduced to its top id. */
  datatype Output =
    | MaxSat(entries: seq<Entry>, top: int)                               // type_sat 0
    | PartialMaxSat(hard: seq<Entry>, soft: seq<Clause>, top: int)        // type_sat 1
    | NoOutput                                                            // any other type_sat: None

  function EncoderOutput(lib: CardLib, inst: Instance, pv: ProblemVars, typeSat: int): (out: Output)
    requires Ready(inst, pv)
    ensures out.MaxSat? <==> typeSat == 0
    ensures out.PartialMaxSat? <==> typeSat == 1
  {
    var hard := EncoderHard(lib, inst, pv);
    var soft := EncoderSoft(lib, inst, pv, hard.top);
    if typeSat == 0 then MaxSat(hard.entries + AsEntries(soft.clauses), soft.top)
    else if typeSat == 1 then PartialMaxSat(hard.entries, soft.clauses, soft.top)
    else NoOutput
  }

  // ---------------------------------------------------------------------
  // The encoders

  /** encoder.py `encoder`: the clause list it prints. */
  method DraftEncoder(inst: Instance) returns (pv: ProblemVars, clauses: seq<Clause>)
    requires DraftWellFormed(inst)
    ensures IsLayout(pv, inst.courseIds, inst.curriculumIds, inst.roomIds, inst.TotalHours(), inst.numDays, false)
    ensures DraftReady(inst, pv) && clauses == DraftClauses(inst, pv)
  {
    var nVar;
    pv, nVar := GetVarsFrom1(inst);
    DraftReadyFromLayout(inst, pv);
    clauses := DraftEncoderOver(inst, pv);
  }

  /** basic_encoder.py `encoder`. */
  method Encoder(lib: CardLib, inst: Instance, typeSat: int) returns (pv: ProblemVars, out: Output)
    requires WellFormed(inst)
    ensures IsLayout(pv, inst.courseIds, inst.curriculumIds, inst.roomIds, inst.TotalHours(), inst.numDays, false)
    ensures Ready(inst, pv) && out == EncoderOutput(lib, inst, pv, typeSat)
  {
    var nVar;
    pv, nVar := GetVarsFrom1(inst);
    ReadyFromLayout(inst, pv);
    var pool := new IdPool(nVar);
    var hard := EncoderHardPart(lib, inst, pv, pool);
    ghost var hardTop := pool.top;
    var soft := EncoderSoftPart(lib, inst, pv, pool);
    assert hardTop == EncoderHard(lib, inst, pv).top;
    if typeSat == 0 {
      out := MaxSat(hard + AsEntries(soft), pool.top);
    } else if typeSat == 1 {
      out := PartialMaxSat(hard, soft, pool.top);
    } else {
      out := NoOutput;
    }
  }

  /** The hard generators of basic_encoder.py `encoder` up to the lecture counts, the pool
      starting at the last variable id. */
  method HardBeforePart(lib: CardLib, inst: Instance, pv: ProblemVars, pool: IdPool) returns (hard: seq<Clause>)
    requires Ready(inst, pv) && pool.top == pv.top
    modifies pool
    ensures CardOut(hard, pool.top) == HardBefore(lib, inst, pv)
  {
    hard := DraftEncoderOver(inst, pv);
    var cls := HardMiddlePart(lib, inst, pv, pool);
    hard := hard + cls;
  }

  /** `room_clashes`, `time_slot_availability` and `number_of_lectures`, the pool starting at
      the last variable id. */
  method HardMiddlePart(lib: CardLib, inst: Instance, pv: ProblemVars, pool: IdPool) returns (hard: seq<Clause>)
    requires Ready(inst, pv) && pool.top == pv.top
    modifies pool
    ensures CardOut(hard, pool.top) == HardMiddle(lib, inst, pv)
  {
    var cs, rs, n, ppd := inst.courseIds, inst.roomIds, inst.TotalHours(), inst.periodsPerDay;
    var hours := if cs == [] then [] else Range(0, n);
    hard := RoomClashesOver(pv.ch, pv.cr, cs, rs, hours);
    var cls := TimeSlotAvailabilityStrict(pv.ch, inst.unavailabilities, ppd);
    hard := hard + cls;
    RangeMember(0, n);
    cls := NumberOfLecturesOver(lib, cs, inst.courses, pv.ch, hours, pool);
    hard := hard + cls;
  }

  /** The hard list of basic_encoder.py `encoder`, bare capacity literals included. */
  method EncoderHardPart(lib: CardLib, inst: Instance, pv: ProblemVars, pool: IdPool) returns (hard: seq<Entry>)
    requires Ready(inst, pv) && pool.top == pv.top
    modifies pool
    ensures EntriesOut(hard, pool.top) == EncoderHard(lib, inst, pv)
  {
    var before := HardBeforePart(lib, inst, pv, pool);
    hard := AsEntries(before);
    var lits := RoomCapacityBare(inst.courseIds, inst.courses, inst.roomIds, inst.rooms, pv.cr);
    hard := hard + BareEntries(lits);
    var cls := RoomStabilityHard(lib, inst.courseIds, inst.roomIds, pv.cr, pool);
    hard := hard + AsEntries(cls);
  }

  /** The soft list of basic_encoder.py `encoder`, the pool continuing from the hard list. */
  method EncoderSoftPart(lib: CardLib, inst: Instance, pv: ProblemVars, pool: IdPool) returns (soft: seq<Clause>)
    requires Ready(inst, pv)
    modifies pool
    ensures CardOut(soft, pool.top) == EncoderSoft(lib, inst, pv, old(pool.top))
  {
    soft := MinWorkingDaysHard(lib, inst.courseIds, inst.courses, pv.cd, inst.numDays, pool);
    var cls := IsolatedLecturesBoth(pv.kh, inst.curriculumIds, inst.periodsPerDay, inst.TotalHours());
    soft := soft + cls;
  }

  /** The first four generators, shared by both encoders. */
  method DraftEncoderOver(inst: Instance, pv: ProblemVars) returns (clauses: seq<Clause>)
    requires DraftReady(inst, pv)
    ensures clauses == DraftClauses(inst, pv)
  {
    GridDayLookups(inst, pv);
    clauses := RelationChCdStrict(pv.ch, pv.cd, inst.periodsPerDay);
    var cls := RelationChKhStrict(pv.ch, pv.kh, inst.curriculumIds, inst.curricula);
    clauses := clauses + cls;
    cls := CurriculumClashesOver(pv.ch, inst.curriculumIds, inst.curricula);
    clauses := clauses + cls;
    cls := TeacherClashesMispaired(inst.courseIds, inst.courses, pv.ch);
    clauses := clauses + cls;
  }

  // ---------------------------------------------------------------------
  // What the older encoder asks of an assignment

  /** The older `curriculum_clashes`, walking one slot per key, accepts the same assignments as the
      complete encoder's, walking the slots 0 .. n-1. */
  lemma CurriculumPieceAgrees(a: set<int>, inst: Instance, pv: ProblemVars)
    requires DraftReady(inst, pv)
    ensures forall v :: v in pv.ch.keys ==> v.Ch?
    ensures Sat(a, ListedCurriculumClashes(pv.ch, inst.curriculumIds, inst.curricula, HoursOf(pv.ch.keys)))
        <==> Sat(a, CurriculumClashesClauses(pv.ch, inst.curriculumIds, inst.curricula, inst.TotalHours()))
  {
    var ch, ks, cc, n := pv.ch, inst.curriculumIds, inst.curricula, inst.TotalHours();
    assert forall v :: v in ch.keys ==> v in ch.ids;
    var hs := HoursOf(ch.keys);
    HoursOfMembers(ch.keys);
    ListedCurriculumMeaning(a, ch, ks, cc, hs);
    CurriculumClashesMeaning(a, ch, ks, cc, n);
    // Wherever a course is taught, its slot is both listed and below n.
    forall k, h, c | k in ks && Taught(a, ch, c, h)
      ensures h in hs && 0 <= h < n
    {
      assert Ch(c, h) in ch.keys;
    }
  }

  /** The older `room_clashes`, slots outermost over the slot set, accepts the same assignments as
      the complete encoder's `room_clashes_basic`. */
  lemma RoomPieceAgrees(a: set<int>, inst: Instance, pv: ProblemVars)
    requires Ready(inst, pv)
    ensures var t := Dicts(pv.ch, pv.cr, VarMap([], map[]));
      (Sat(a, RoomClashesByHour(t, inst.courseIds, inst.roomIds, SlotHours(inst)))
       <==> Sat(a, RoomClashesBasicClauses(t, inst.courseIds, inst.roomIds, inst.TotalHours())))
  {
    var t := Dicts(pv.ch, pv.cr, VarMap([], map[]));
    var cs, rs, n := inst.courseIds, inst.roomIds, inst.TotalHours();
    if cs == [] {
      RoomClashesByHourMeaning(a, t, cs, rs, []);
      RoomClashesBasicMeaning(a, t, cs, rs, n);
    } else {
      RoomClashesByHourAgrees(a, t, cs, rs, n);
    }
  }

  /** With at least one slot, the older `number_of_lectures` makes the complete encoder's requests. */
  lemma LecturePieceAgrees(inst: Instance, pv: ProblemVars)
    requires Ready(inst, pv) && inst.TotalHours() >= 1
    ensures ListedLectureCalls(pv.ch, inst.courseIds, inst.courses, SlotHours(inst))
         == LectureCalls(pv.ch, inst.courseIds, inst.courses, inst.TotalHours())
  {
    if inst.courseIds != [] {
      ListedLectureCallsAgree(pv.ch, inst.courseIds, inst.courses, inst.TotalHours());
    }
  }

  /** The relations and curriculum clashes the older encoders start with accept the same
      assignments as the complete encoder's, when every curriculum has a course. */
  lemma PrefixAgrees(a: set<int>, inst: Instance, pv: ProblemVars)
    requires DraftReady(inst, pv)
    requires forall k :: k in inst.curricula ==> inst.curricula[k].courses != []
    ensures Sat(a, DraftPrefix(inst, pv))
        <==> Sat(a, ChCdClauses(pv.ch, pv.cd, inst.periodsPerDay)
                    + ChKhClauses(pv.ch, pv.kh, inst.curriculumIds, inst.curricula)
                    + CurriculumClashesClauses(pv.ch, inst.curriculumIds, inst.curricula, inst.TotalHours()))
  {
    var ch, ks, cc, n := pv.ch, inst.curriculumIds, inst.curricula, inst.TotalHours();
    assert forall v :: v in ch.keys ==> v in ch.ids;
    var relations := ChCdClauses(ch, pv.cd, inst.periodsPerDay) + ChKhClauses(ch, pv.kh, ks, cc);
    ListedChKhAgrees(ch, pv.kh, ks, cc);
    CurriculumPieceAgrees(a, inst, pv);
    SatAppend(a, relations, ListedCurriculumClashes(ch, ks, cc, HoursOf(ch.keys)));
    SatAppend(a, relations, CurriculumClashesClauses(ch, ks, cc, n));
  }

  /** As written, encoder.py's clauses ask for the complete encoder's relations and curriculum
      clashes (when every curriculum has a course) and, in place of the teacher clashes, that the
      courses at positions i < j < g of the instance-wide list share no listed slot, for g the size
      of some teacher's group, whoever teaches them (ListedSlotsInGrid: the listed slots are the
      grid's). */
  lemma DraftMeaning(a: set<int>, inst: Instance, pv: ProblemVars)
    requires DraftReady(inst, pv)
    requires forall k :: k in inst.curricula ==> inst.curricula[k].courses != []
    ensures forall t :: |Group(inst.courseIds, inst.courses, t)| <= |inst.courseIds|
    ensures Sat(a, DraftClauses(inst, pv))
        <==> Sat(a, ChCdClauses(pv.ch, pv.cd, inst.periodsPerDay)
                    + ChKhClauses(pv.ch, pv.kh, inst.curriculumIds, inst.curricula)
                    + CurriculumClashesClauses(pv.ch, inst.curriculumIds, inst.curricula, inst.TotalHours()))
             && (forall t, h, i, j :: t in TeacherOrder(inst.courseIds, inst.courses)
                   && 2 <= |Group(inst.courseIds, inst.courses, t)| && h in HoursOf(pv.ch.keys)
                   && 0 <= i < j < |Group(inst.courseIds, inst.courses, t)|
                   ==> !(Taught(a, pv.ch, inst.courseIds[i], h) && Taught(a, pv.ch, inst.courseIds[j], h)))
  {
    assert forall v :: v in pv.ch.keys ==> v in pv.ch.ids;
    MispairedMeaning(a, pv.ch, TeacherOrder(inst.courseIds, inst.courses), inst.courseIds, inst.courses,
                     HoursOf(pv.ch.keys));
    PrefixAgrees(a, inst, pv);
    SatAppend(a, DraftPrefix(inst, pv), TeacherClashesAsWritten(pv.ch, inst.courseIds, inst.courses));
  }

  /** Once there is a course, the slots listed by `{h for (c, h) in ch}` (with repeats) are the
      slots of the grid. */
  lemma ListedSlotsInGrid(inst: Instance, pv: ProblemVars)
    requires DraftReady(inst, pv)
    ensures forall v :: v in pv.ch.keys ==> v.Ch?
    ensures forall h :: h in HoursOf(pv.ch.keys) <==> inst.courseIds != [] && 0 <= h < inst.TotalHours()
  {
    var ch, cs := pv.ch, inst.courseIds;
    assert forall v :: v in ch.keys ==> v in ch.ids;
    HoursOfMembers(ch.keys);
    forall h | inst.courseIds != [] && 0 <= h < inst.TotalHours()
      ensures h in HoursOf(ch.keys)
    {
      assert Ch(cs[0], h) in ch.keys;
    }
  }

  /** With the corrected `teacher_clashes`, encoder.py's clauses accept the same assignments as the
      first four generators of the complete encoder, when every curriculum has a course. */
  lemma DraftCorrectedAgrees(a: set<int>, inst: Instance, pv: ProblemVars)
    requires DraftReady(inst, pv)
    requires forall k :: k in inst.curricula ==> inst.curricula[k].courses != []
    ensures Sat(a, DraftCorrected(inst, pv))
        <==> Sat(a, ChCdClauses(pv.ch, pv.cd, inst.periodsPerDay)
                    + ChKhClauses(pv.ch, pv.kh, inst.curriculumIds, inst.curricula)
                    + CurriculumClashesClauses(pv.ch, inst.curriculumIds, inst.curricula, inst.TotalHours())
                    + TeacherClashesClauses(pv.ch, inst.courseIds, inst.courses, inst.TotalHours()))
  {
    var ch, ks, cc, n := pv.ch, inst.curriculumIds, inst.curricula, inst.TotalHours();
    var first := ChCdClauses(ch, pv.cd, inst.periodsPerDay) + ChKhClauses(ch, pv.kh, ks, cc)
      + CurriculumClashesClauses(ch, ks, cc, n);
    var teachers := TeacherClashesClauses(ch, inst.courseIds, inst.courses, n);
    PrefixAgrees(a, inst, pv);
    SatAppend(a, DraftPrefix(inst, pv), teachers);
    SatAppend(a, first, teachers);
  }

  /** With a slot and a course in every curriculum, the corrected hard list of the older encoder
      accepts the same assignments as the hard list of the complete encoder's section 4.2, and
      leaves the pool at the same top. */
  lemma CorrectedHardAgrees(a: set<int>, lib: CardLib, inst: Instance, pv: ProblemVars)
    requires Ready(inst, pv) && inst.TotalHours() >= 1
    requires forall k :: k in inst.curricula ==> inst.curricula[k].courses != []
    ensures CorrectedHard(lib, inst, pv).top == Hard42(lib, inst, pv).top
    ensures Sat(a, CorrectedHard(lib, inst, pv).clauses) <==> Sat(a, Hard42(lib, inst, pv).clauses)
  {
    var cs, rs, n, ppd := inst.courseIds, inst.roomIds, inst.TotalHours(), inst.periodsPerDay;
    var t := Dicts(pv.ch, pv.cr, VarMap([], map[]));
    LecturePieceAgrees(inst, pv);
    BareCapacityUnits(pv.cr, cs, inst.courses, rs, inst.rooms);
    DraftCorrectedAgrees(a, inst, pv);
    RoomPieceAgrees(a, inst, pv);
    // Both lists split along their own nesting.
    var byHour := RoomClashesByHour(t, cs, rs, SlotHours(inst));
    var avail := AvailabilityClauses(pv.ch, inst.unavailabilities, ppd);
    var lec := RunCalls(lib.equals, LectureCalls(pv.ch, cs, inst.courses, n), pv.top);
    var cap := CapacityHardClauses(pv.cr, cs, inst.courses, rs, inst.rooms);
    var stab := RunCalls(lib.equals, StabilityCalls(pv.cr, cs, rs), lec.top);
    var mid := HardMiddle(lib, inst, pv);
    var draft := DraftCorrected(inst, pv);
    SatAppend(a, draft + mid.clauses + cap, stab.clauses);
    SatAppend(a, draft + mid.clauses, cap);
    SatAppend(a, draft, mid.clauses);
    SatAppend(a, byHour + avail, lec.clauses);
    SatAppend(a, byHour, avail);
    var first := ChCdClauses(pv.ch, pv.cd, ppd) + ChKhClauses(pv.ch, pv.kh, inst.curriculumIds, inst.curricula)
      + CurriculumClashesClauses(pv.ch, inst.curriculumIds, inst.curricula, n)
      + TeacherClashesClauses(pv.ch, cs, inst.courses, n);
    var basic := RoomClashesBasicClauses(t, cs, rs, n);
    var bh := BasicHard(inst, pv);
    SatAppend(a, bh + lec.clauses + cap, stab.clauses);
    SatAppend(a, bh + lec.clauses, cap);
    SatAppend(a, bh, lec.clauses);
    SatAppend(a, first + basic, avail);
    SatAppend(a, first, basic);
  }

  /** With a slot and a course in every curriculum, the corrected older encoder asks of an
      assignment exactly what section 3 of the complete encoder asks (the hard and soft lists
      joined, as for MaxSAT, or taken together, as for partial MaxSAT), and leaves the pool at
      the same top, which is also where the encoder as written leaves it. */
  lemma CorrectedIsSection3(a: set<int>, lib: CardLib, inst: Instance, pv: ProblemVars)
    requires Ready(inst, pv) && inst.TotalHours() >= 1
    requires forall k :: k in inst.curricula ==> inst.curricula[k].courses != []
    ensures EncoderSoft(lib, inst, pv, CorrectedHard(lib, inst, pv).top).top == Section3(lib, inst, pv).top
    ensures EncoderOutput(lib, inst, pv, 0).top == Section3(lib, inst, pv).top
    ensures Sat(a, CorrectedHard(lib, inst, pv).clauses + EncoderSoft(lib, inst, pv, CorrectedHard(lib, inst, pv).top).clauses)
        <==> Sat(a, Section3(lib, inst, pv).hard)
    ensures Sat(a, CorrectedHard(lib, inst, pv).clauses) && Sat(a, EncoderSoft(lib, inst, pv, CorrectedHard(lib, inst, pv).top).clauses)
        <==> Sat(a, Section3(lib, inst, pv).hard)
  {
    var hard := CorrectedHard(lib, inst, pv);
    var h42 := Hard42(lib, inst, pv);
    CorrectedHardAgrees(a, lib, inst, pv);
    CorrectionsOnly(lib, inst, pv);
    var md := RunCalls(lib.atLeast, MinDaysCalls(pv.cd, inst.courseIds, inst.courses, inst.numDays), h42.top);
    assert inst.TotalHours() == inst.numDays * inst.periodsPerDay;
    IsolatedBothAgrees(pv.kh, inst.curriculumIds, inst.periodsPerDay, inst.numDays);
    var iso := Isolated(inst, pv);
    assert EncoderSoft(lib, inst, pv, hard.top).clauses == md.clauses + iso;
    assert Section3(lib, inst, pv).hard == h42.clauses + md.clauses + iso;
    SatAppend(a, hard.clauses, md.clauses + iso);
    SatAppend(a, md.clauses, iso);
    SatAppend(a, h42.clauses + md.clauses, iso);
    SatAppend(a, h42.clauses, md.clauses);
  }

  /** The MaxSAT list is the partial MaxSAT pair joined, hard part first (`hard_clauses.extend(soft_clauses)`). */
  lemma MaxSatJoinsPartial(lib: CardLib, inst: Instance, pv: ProblemVars)
    requires Ready(inst, pv)
    ensures EncoderOutput(lib, inst, pv, 0).entries
         == EncoderOutput(lib, inst, pv, 1).hard + AsEntries(EncoderOutput(lib, inst, pv, 1).soft)
    ensures EncoderOutput(lib, inst, pv, 0).top == EncoderOutput(lib, inst, pv, 1).top
  {
  }

  /** encoder.py's clause list is where basic_encoder.py's hard list starts. */
  lemma DraftStartsHard(lib: CardLib, inst: Instance, pv: ProblemVars)
    requires Ready(inst, pv)
    ensures |DraftClauses(inst, pv)| <= |EncoderHard(lib, inst, pv).entries|
    ensures EncoderHard(lib, inst, pv).entries[..|DraftClauses(inst, pv)|] == AsEntries(DraftClauses(inst, pv))
  {
    var before := HardBefore(lib, inst, pv);
    EntriesPrefix(DraftClauses(inst, pv), HardMiddle(lib, inst, pv).clauses,
                  BareEntries(BareCapacity(pv.cr, inst.courseIds, inst.courses, inst.roomIds, inst.rooms)),
                  AsEntries(Stability(lib, inst, pv, before.top).clauses));
  }

  /** The entries of d + m, followed by anything, start with the entries of d. */
  lemma EntriesPrefix(d: seq<Clause>, m: seq<Clause>, r1: seq<Entry>, r2: seq<Entry>)
    ensures |d| <= |AsEntries(d + m) + r1 + r2|
    ensures (AsEntries(d + m) + r1 + r2)[..|d|] == AsEntries(d)
  {
    var w := AsEntries(d + m) + r1 + r2;
    forall i | 0 <= i < |d|
      ensures w[i] == AsEntries(d)[i]
    {
      assert w[i] == AsEntries(d + m)[i];
      assert (d + m)[i] == d[i];
    }
  }

  // ---------------------------------------------------------------------
  // How the written lists differ from the corrected ones

  /** As written, the hard list holds something that is not a clause exactly when some course has
      more students than some room has seats. */
  lemma WrittenHardHoldsLiterals(lib: CardLib, inst: Instance, pv: ProblemVars)
    requires Ready(inst, pv)
    ensures (exists i :: 0 <= i < |EncoderHard(lib, inst, pv).entries| && EncoderHard(lib, inst, pv).entries[i].Bare?)
        <==> exists c, r :: c in inst.courseIds && r in inst.roomIds && inst.courses[c].numStudents > inst.rooms[r].capacity
  {
    var cs, rs := inst.courseIds, inst.roomIds;
    var before := HardBefore(lib, inst, pv);
    var stab := Stability(lib, inst, pv, before.top);
    var lits := BareCapacity(pv.cr, cs, inst.courses, rs, inst.rooms);
    assert EncoderHard(lib, inst, pv).entries == AsEntries(before.clauses) + BareEntries(lits) + AsEntries(stab.clauses);
    WrapParts(before.clauses, lits, stab.clauses);
    BareCapacityNonEmpty(pv.cr, cs, inst.courses, rs, inst.rooms);
  }

  /** The corrected hard list is the written one with its bare literals wrapped as unit clauses and
      encoder.py's teacher block replaced by the corrected one; the pool ends at the same top. */
  lemma CorrectionsOnly(lib: CardLib, inst: Instance, pv: ProblemVars)
    requires Ready(inst, pv)
    ensures CorrectedHard(lib, inst, pv).top == EncoderHard(lib, inst, pv).top
    ensures |DraftClauses(inst, pv)| <= |EncoderHard(lib, inst, pv).entries|
    ensures CorrectedHard(lib, inst, pv).clauses
         == DraftCorrected(inst, pv) + WrapAll(EncoderHard(lib, inst, pv).entries)[|DraftClauses(inst, pv)|..]
  {
    var mid := HardMiddle(lib, inst, pv);
    WrapSplice(DraftClauses(inst, pv), DraftCorrected(inst, pv), mid.clauses,
               BareCapacity(pv.cr, inst.courseIds, inst.courses, inst.roomIds, inst.rooms),
               Stability(lib, inst, pv, mid.top).clauses);
  }

  /** Wrapping the entries of d + m, the literals and s, and dropping the first |d|, leaves m, the
      literals as unit clauses, and s; so putting d' in front gives d' + m + units + s. */
  lemma WrapSplice(d: seq<Clause>, d': seq<Clause>, m: seq<Clause>, lits: seq<int>, s: seq<Clause>)
    ensures |d| <= |WrapAll(AsEntries(d + m) + BareEntries(lits) + AsEntries(s))|
    ensures d' + m + Units(lits) + s == d' + WrapAll(AsEntries(d + m) + BareEntries(lits) + AsEntries(s))[|d|..]
  {
    var w := AsEntries(d + m) + BareEntries(lits) + AsEntries(s);
    WrapParts(d + m, lits, s);
    var e := d + m + Units(lits) + s;
    assert WrapAll(w) == e;
    assert e[|d|..] == m + Units(lits) + s;
  }

  /** Clauses, bare literals, clauses: wrapped entry by entry, the clauses with the literals as unit
      clauses; a bare entry occurs exactly when there are literals. */
  lemma WrapParts(x: seq<Clause>, lits: seq<int>, y: seq<Clause>)
    ensures |AsEntries(x) + BareEntries(lits) + AsEntries(y)| == |x + Units(lits) + y|
    ensures forall i :: 0 <= i < |x + Units(lits) + y| ==>
              Wrap((AsEntries(x) + BareEntries(lits) + AsEntries(y))[i]) == (x + Units(lits) + y)[i]
    ensures (exists i :: 0 <= i < |x + Units(lits) + y| && (AsEntries(x) + BareEntries(lits) + AsEntries(y))[i].Bare?)
        <==> lits != []
  {
    var w, e := AsEntries(x) + BareEntries(lits) + AsEntries(y), x + Units(lits) + y;
    var m, k := |x|, |lits|;
    forall i | 0 <= i < |w|
      ensures Wrap(w[i]) == e[i]
      ensures w[i].Bare? <==> m <= i < m + k
    {
      if i < m {
        assert w[i] == Listed(x[i]) && e[i] == x[i];
      } else if i < m + k {
        assert w[i] == Bare(lits[i - m]) && e[i] == Units(lits)[i - m];
      } else {
        assert w[i] == Listed(y[i - m - k]) && e[i] == y[i - m - k];
      }
    }
    if k > 0 {
      assert w[m].Bare?;
    }
  }
}
