/**
 * The allocators and relation generators of the two earlier encoders, basic_encoder.py and
 * encoder.py (the second holds a subset of the first, line for line): `get_ch` .. `get_kh`,
 * `relation_ch_cd`, `relation_ch_kh` with `c_in_k`, and `time_slot_availability`.  They
 * differ from complete_encode.py in ways modelled as written here:
 *   - the allocators thread an explicit counter `n_var` instead of a pool;
 *   - the generators index the dictionaries without checking the key, so a missing key is
 *     an error: the methods require the keys they look up, and lemmas show that the grid
 *     the allocators build holds all of them;
 *   - `relation_ch_kh` finds a course's curricula through `c_in_k` and gives a curriculum
 *     without courses no cover clause.
 * Each as-written definition is related by a lemma to the complete encoder's definition.
 * The clash, capacity, isolation and lecture-count generators are in BasicConstraints.
 */
module BasicGenerators {
  import opened Seqs
  import opened Calendar
  import opened Timetabling
  import opened Variables
  import opened Literals
  import opened Allocation
  import opened Relations
  import opened Clashes
  import opened Constraints
  import opened Sections

  // ---------------------------------------------------------------------
  // get_ch, get_cd, get_cr, get_kh with an explicit counter

  /** One step of the allocation loops: `d[key] = n_var; id_to_var[n_var] = key; n_var += 1`. */
  method Assign(k: Var, next: int, m: VarMap, idToVar: map<int, Var>, ghost keys: seq<Var>, ghost base: int)
    returns (m': VarMap, next': int, idToVar': map<int, Var>)
    requires m == Dense(keys, base) && next == base + |keys|
    ensures m' == Dense(keys + [k], base)
    ensures idToVar' == idToVar[base + |keys| := k]
    ensures next' == base + |keys + [k]|
  {
    DenseSnoc(keys, k, base);
    m' := m.Put(k, next);
    idToVar' := idToVar[next := k];
    next' := next + 1;
  }

  /** The inner loop of `get_ch` (`get_cd`, `get_kh`): keys (x, i) for i < n, from the counter on. */
  method AssignSlotRow(f: SlotFamily, x: string, n: nat, next: int, m: VarMap,
                       idToVar: map<int, Var>, ghost idToVar0: map<int, Var>, ghost keys: seq<Var>, ghost base: int)
    returns (m': VarMap, next': int, idToVar': map<int, Var>)
    requires m == Dense(keys, base) && idToVar == Record(idToVar0, keys, base)
    requires next == base + |keys|
    ensures m' == Dense(keys + SlotRow(f, x, n), base)
    ensures idToVar' == Record(idToVar0, keys + SlotRow(f, x, n), base)
    ensures next' == base + |keys + SlotRow(f, x, n)|
  {
    ghost var ks := keys;
    m', next', idToVar' := m, next, idToVar;
    var j := 0;
    while j < n
      invariant 0 <= j <= n
      invariant ks == keys + SlotRow(f, x, j)
      invariant m' == Dense(ks, base)
      invariant idToVar' == Record(idToVar0, ks, base)
      invariant next' == base + |ks|
    {
      RecordSnoc(idToVar0, ks, Slot(f, x, j), base);
      AppendAssoc(keys, SlotRow(f, x, j), [Slot(f, x, j)]);
      assert SlotRow(f, x, j + 1) == SlotRow(f, x, j) + [Slot(f, x, j)];
      m', next', idToVar' := Assign(Slot(f, x, j), next', m', idToVar', ks, base);
      ks := ks + [Slot(f, x, j)];
      j := j + 1;
    }
  }

  /** `get_ch` (`get_cd`, `get_kh` with the CD and KH families): the keys (x, i) for x in `xs`,
      i < n, get the ids nVar, nVar + 1, ...; the result is the next free id. */
  method GetSlotsFrom(f: SlotFamily, xs: seq<string>, n: nat, nVar: int, idToVar: map<int, Var>)
    returns (m: VarMap, next: int, idToVar': map<int, Var>)
    ensures m == Dense(SlotGrid(f, xs, n), nVar)
    ensures idToVar' == Record(idToVar, SlotGrid(f, xs, n), nVar)
    ensures next == nVar + |SlotGrid(f, xs, n)|
  {
    ghost var keys: seq<Var> := [];
    m, next, idToVar' := VarMap([], map[]), nVar, idToVar;
    var i := 0;
    while i < |xs|
      invariant 0 <= i <= |xs|
      invariant keys == SlotGrid(f, xs[..i], n)
      invariant m == Dense(keys, nVar) && idToVar' == Record(idToVar, keys, nVar)
      invariant next == nVar + |keys|
    {
      m, next, idToVar' := AssignSlotRow(f, xs[i], n, next, m, idToVar', idToVar, keys, nVar);
      SlotGridSnoc(f, xs, i, n);
      keys := keys + SlotRow(f, xs[i], n);
      i := i + 1;
    }
    assert xs[..|xs|] == xs;
  }

  /** The inner loop of `get_cr`: keys (c, r) for r in `rs`, from the counter on. */
  method AssignCrRow(c: CourseId, rs: seq<RoomId>, next: int, cr: VarMap,
                     idToVar: map<int, Var>, ghost idToVar0: map<int, Var>, ghost keys: seq<Var>, ghost base: int)
    returns (cr': VarMap, next': int, idToVar': map<int, Var>)
    requires cr == Dense(keys, base) && idToVar == Record(idToVar0, keys, base)
    requires next == base + |keys|
    ensures cr' == Dense(keys + CrRow(c, rs), base)
    ensures idToVar' == Record(idToVar0, keys + CrRow(c, rs), base)
    ensures next' == base + |keys + CrRow(c, rs)|
  {
    ghost var ks := keys;
    cr', next', idToVar' := cr, next, idToVar;
    var j := 0;
    while j < |rs|
      invariant 0 <= j <= |rs|
      invariant ks == keys + CrRow(c, rs[..j])
      invariant cr' == Dense(ks, base)
      invariant idToVar' == Record(idToVar0, ks, base)
      invariant next' == base + |ks|
    {
      RecordSnoc(idToVar0, ks, Cr(c, rs[j]), base);
      CrRowSnoc(c, rs, j);
      AppendAssoc(keys, CrRow(c, rs[..j]), [Cr(c, rs[j])]);
      cr', next', idToVar' := Assign(Cr(c, rs[j]), next', cr', idToVar', ks, base);
      ks := ks + [Cr(c, rs[j])];
      j := j + 1;
    }
    assert rs[..|rs|] == rs;
  }

  /** `get_cr`: the keys (c, r) for c in `cs`, r in `rs`, from the id nVar on. */
  method GetCrFrom(cs: seq<CourseId>, rs: seq<RoomId>, nVar: int, idToVar: map<int, Var>)
    returns (cr: VarMap, next: int, idToVar': map<int, Var>)
    ensures cr == Dense(CrGrid(cs, rs), nVar)
    ensures idToVar' == Record(idToVar, CrGrid(cs, rs), nVar)
    ensures next == nVar + |CrGrid(cs, rs)|
  {
    ghost var keys: seq<Var> := [];
    cr, next, idToVar' := VarMap([], map[]), nVar, idToVar;
    var i := 0;
    while i < |cs|
      invariant 0 <= i <= |cs|
      invariant keys == CrGrid(cs[..i], rs)
      invariant cr == Dense(keys, nVar) && idToVar' == Record(idToVar, keys, nVar)
      invariant next == nVar + |keys|
    {
      cr, next, idToVar' := AssignCrRow(cs[i], rs, next, cr, idToVar', idToVar, keys, nVar);
      assert cs[..i + 1][..i] == cs[..i];
      keys := keys + CrRow(cs[i], rs);
      i := i + 1;
    }
    assert cs[..|cs|] == cs;
  }

  /** The four allocation calls of both earlier encoders, from `n_var = 1`: the same layout as the
      complete encoder's (without room-slot variables), and the counter ends one past the last id,
      which is where the pool of the cardinality encodings starts. */
  method GetVarsFrom1(inst: Instance) returns (pv: ProblemVars, nVar: int)
    ensures IsLayout(pv, inst.courseIds, inst.curriculumIds, inst.roomIds, inst.TotalHours(), inst.numDays, false)
    ensures nVar == pv.top + 1
  {
    ghost var k1, k2, k3 := SlotGrid(CH, inst.courseIds, inst.TotalHours()), SlotGrid(CD, inst.courseIds, inst.numDays),
                            CrGrid(inst.courseIds, inst.roomIds);
    ghost var k4 := SlotGrid(KH, inst.curriculumIds, inst.TotalHours());
    var idToVar: map<int, Var> := map[];
    nVar := 1;
    var ch, cd, cr, kh;
    ch, nVar, idToVar := GetSlotsFrom(CH, inst.courseIds, inst.TotalHours(), nVar, idToVar);
    cd, nVar, idToVar := GetSlotsFrom(CD, inst.courseIds, inst.numDays, nVar, idToVar);
    cr, nVar, idToVar := GetCrFrom(inst.courseIds, inst.roomIds, nVar, idToVar);
    kh, nVar, idToVar := GetSlotsFrom(KH, inst.curriculumIds, inst.TotalHours(), nVar, idToVar);
    pv := ProblemVars(ch, cd, cr, kh, VarMap([], map[]), idToVar, nVar - 1);
    RecordChain(k1, k2, k3, k4, []);
    assert k1 + k2 + k3 + k4 + [] == k1 + k2 + k3 + k4;
  }

  // ---------------------------------------------------------------------
  // The keys the unchecked lookups rely on

  /** Every (course, slot), (course, day) and (course, room) key of the instance's grid exists, and
      the slot and day dictionaries hold nothing else. */
  ghost predicate FullGrid(inst: Instance, pv: ProblemVars) {
    && (forall c, h :: c in inst.courseIds && 0 <= h < inst.TotalHours() ==> Ch(c, h) in pv.ch.ids)
    && (forall v :: v in pv.ch.ids ==> v.Ch? && v.c in inst.courseIds && 0 <= v.h < inst.TotalHours())
    && (forall c, d :: c in inst.courseIds && 0 <= d < inst.numDays ==> Cd(c, d) in pv.cd.ids)
    && (forall v :: v in pv.cd.ids ==> v.Cd? && v.c in inst.courseIds && 0 <= v.d < inst.numDays)
    && (forall c, r :: c in inst.courseIds && r in inst.roomIds ==> Cr(c, r) in pv.cr.ids)
  }

  lemma ChFull(ch: VarMap, cs: seq<CourseId>, n: nat)
    requires Distinct(cs) && ch == Dense(SlotGrid(CH, cs, n), 1)
    ensures forall c, h :: c in cs && 0 <= h < n ==> Ch(c, h) in ch.ids
    ensures forall v :: v in ch.ids ==> v.Ch? && v.c in cs && 0 <= v.h < n
  {
    SlotFamilyShaped(ch, CH, cs, n, SlotGrid(CH, cs, n), 1);
    forall c, h | c in cs && 0 <= h < n
      ensures Ch(c, h) in ch.ids
    {
      assert Slot(CH, c, h) == Ch(c, h);
    }
    forall v | v in ch.ids
      ensures v.Ch? && v.c in cs && 0 <= v.h < n
    {
      var x, i :| IsSlot(CH, v, x, i) && x in cs && 0 <= i < n;
    }
  }

  lemma CdFull(cd: VarMap, cs: seq<CourseId>, days: nat, base: int)
    requires Distinct(cs) && base >= 1 && cd == Dense(SlotGrid(CD, cs, days), base)
    ensures forall c, d :: c in cs && 0 <= d < days ==> Cd(c, d) in cd.ids
    ensures forall v :: v in cd.ids ==> v.Cd? && v.c in cs && 0 <= v.d < days
  {
    SlotFamilyShaped(cd, CD, cs, days, SlotGrid(CD, cs, days), base);
    forall c, d | c in cs && 0 <= d < days
      ensures Cd(c, d) in cd.ids
    {
      assert Slot(CD, c, d) == Cd(c, d);
    }
    forall v | v in cd.ids
      ensures v.Cd? && v.c in cs && 0 <= v.d < days
    {
      var x, i :| IsSlot(CD, v, x, i) && x in cs && 0 <= i < days;
    }
  }

  lemma CrFull(cr: VarMap, cs: seq<CourseId>, rs: seq<RoomId>, base: int)
    requires Distinct(cs) && Distinct(rs) && cr == Dense(CrGrid(cs, rs), base)
    ensures forall c, r :: c in cs && r in rs ==> Cr(c, r) in cr.ids
  {
    CrGridSpec(cs, rs);
    DenseSpec(CrGrid(cs, rs), base);
  }

  /** The layout of both earlier encoders is shaped like the complete encoder's and holds the full grid. */
  lemma LayoutFull(inst: Instance, pv: ProblemVars)
    requires inst.Valid()
    requires IsLayout(pv, inst.courseIds, inst.curriculumIds, inst.roomIds, inst.TotalHours(), inst.numDays, false)
    ensures Shaped(inst, pv) && FullGrid(inst, pv)
    ensures forall k :: k in inst.curriculumIds ==> FullRow(pv.kh, k, inst.TotalHours())
  {
    LayoutShaped(inst, pv, false);
    var cs, rs, n, days := inst.courseIds, inst.roomIds, inst.TotalHours(), inst.numDays;
    var k1, k2, k3, k4 := SlotGrid(CH, cs, n), SlotGrid(CD, cs, days), CrGrid(cs, rs), SlotGrid(KH, inst.curriculumIds, n);
    LaidOutFull(inst, pv, k1, k2, k3, k4);
  }

  /** The three grids of a layout, one family at a time. */
  lemma LaidOutFull(inst: Instance, pv: ProblemVars, k1: seq<Var>, k2: seq<Var>, k3: seq<Var>, k4: seq<Var>)
    requires inst.Valid() && LaidOut(pv, k1, k2, k3, k4, [])
    requires k1 == SlotGrid(CH, inst.courseIds, inst.TotalHours()) && k2 == SlotGrid(CD, inst.courseIds, inst.numDays)
    requires k3 == CrGrid(inst.courseIds, inst.roomIds)
    ensures FullGrid(inst, pv)
  {
    var cs, rs, n, days := inst.courseIds, inst.roomIds, inst.TotalHours(), inst.numDays;
    assert pv.ch == Dense(k1, 1);
    ChFull(pv.ch, cs, n);
    assert pv.cd == Dense(k2, 1 + |k1|);
    CdFull(pv.cd, cs, days, 1 + |k1|);
    assert pv.cr == Dense(k3, 1 + |k1| + |k2|);
    CrFull(pv.cr, cs, rs, 1 + |k1| + |k2|);
  }

  /** A slot of the grid falls on a day of the grid. */
  lemma SlotDayInGrid(h: int, ppd: int, days: int)
    requires ppd >= 1 && 0 <= h < ppd * days
    ensures 0 <= Day(h, ppd) < days
  {
    DayIsFloorDiv(h, ppd);
    DayBounds(h, ppd);
    MulMonoConverse(h / ppd, days, ppd);
  }

  lemma MulMonoConverse(a: int, b: int, c: int)
    requires c >= 1
    ensures a * c < b * c ==> a < b
  {
    if a >= b {
      MulMono(b, a, c);
    }
  }

  /** The slots of a day of the grid are slots of the grid. */
  lemma DayHoursInGrid(d: int, ppd: int, days: int, h: int)
    requires ppd >= 1 && 0 <= d < days && h in HoursForDay(d, ppd)
    ensures 0 <= h < ppd * days
  {
    HoursForDayShape(d, ppd);
    var i :| 0 <= i < ppd && HoursForDay(d, ppd)[i] == h;
    assert (d + 1) * ppd <= days * ppd by { MulMono(d + 1, days, ppd); }
    assert d * ppd >= 0 by { MulMono(0, d, ppd); }
  }

  lemma MulMono(a: int, b: int, c: int)
    requires a <= b && c >= 0
    ensures a * c <= b * c
  {
    assert b * c - a * c == (b - a) * c;
  }

  // ---------------------------------------------------------------------
  // relation_ch_cd without membership tests

  /** Every lookup of the unchecked `relation_ch_cd` finds its key: the day key of every slot key,
      and every slot of every day key. */
  ghost predicate DayLookups(ch: VarMap, cd: VarMap, ppd: int)
    requires ppd >= 1 && ChMap(ch) && CdMap(cd)
  {
    && (forall v :: v in ch.ids ==> DayKey(v, ppd) in cd.ids)
    && (forall v, h :: v in cd.ids && h in HoursForDay(v.d, ppd) ==> Ch(v.c, h) in ch.ids)
  }

  /** With every slot of the day present, the cover clause lists the ids of all of them, in order. */
  lemma DayCoverStrict(ch: VarMap, cd: VarMap, ppd: int, v: Var)
    requires ppd >= 1 && ChMap(ch) && CdMap(cd) && DayLookups(ch, cd, ppd) && v in cd.ids
    ensures |Present(ch, ChAt(v.c, HoursForDay(v.d, ppd)))| == ppd
    ensures forall i :: 0 <= i < ppd ==>
              Present(ch, ChAt(v.c, HoursForDay(v.d, ppd)))[i] == ch.ids[Ch(v.c, HoursForDay(v.d, ppd)[i])]
  {
    var hs := HoursForDay(v.d, ppd);
    HoursForDayShape(v.d, ppd);
    forall u | u in ChAt(v.c, hs)
      ensures u in ch.ids
    {
      var i :| 0 <= i < |hs| && ChAt(v.c, hs)[i] == u;
      assert hs[i] in hs;
    }
    PresentAll(ch, ChAt(v.c, hs));
  }

  /** `[ch[(c, h)] for h in hour_for_day(d, ppd)]` for a day key (c, d). */
  method DaySlots(ch: VarMap, cd: VarMap, ppd: int, v: Var) returns (aux: seq<int>)
    requires ppd >= 1 && ChMap(ch) && CdMap(cd) && DayLookups(ch, cd, ppd) && v in cd.ids
    ensures aux == Present(ch, ChAt(v.c, HoursForDay(v.d, ppd)))
  {
    var hoursDay := HoursForDay(v.d, ppd);
    DayCoverStrict(ch, cd, ppd, v);
    HoursForDayShape(v.d, ppd);
    aux := seq(|hoursDay|, k requires 0 <= k < |hoursDay| => ch.ids[Ch(v.c, hoursDay[k])]);
  }

  /** The clause `[-cd[(c, d)]] + aux` of one day key (c, d). */
  method DayClause(ch: VarMap, cd: VarMap, ppd: int, v: Var) returns (cl: Clause)
    requires ppd >= 1 && ChMap(ch) && CdMap(cd) && DayLookups(ch, cd, ppd) && v in cd.ids
    ensures cl == DayCover(ch, cd, ppd, v)
  {
    var aux := DaySlots(ch, cd, ppd, v);
    cl := [-cd.ids[v]] + aux;
  }

  /** The first loop of the unchecked `relation_ch_cd`: one link per slot key. */
  method LinkDays(ch: VarMap, cd: VarMap, ppd: int) returns (clauses: seq<Clause>)
    requires ppd >= 1 && ChMap(ch) && CdMap(cd) && DayLookups(ch, cd, ppd)
    ensures clauses == DayLinks(ch, cd, ppd, ch.keys)
    ensures |clauses| == |ch.keys|
  {
    clauses := [];
    var i := 0;
    while i < |ch.keys|
      invariant 0 <= i <= |ch.keys|
      invariant clauses == DayLinks(ch, cd, ppd, ch.keys[..i]) && |clauses| == i
    {
      var v := ch.keys[i];
      assert ch.keys[..i + 1][..i] == ch.keys[..i];
      assert v in ch.ids;
      assert DayKey(v, ppd) in cd.ids;
      var d := Day(v.h, ppd);
      clauses := clauses + [[-ch.ids[v], cd.ids[Cd(v.c, d)]]];
      i := i + 1;
    }
    assert ch.keys[..i] == ch.keys;
  }

  /** The second loop of the unchecked `relation_ch_cd`: one cover per day key. */
  method CoverDays(ch: VarMap, cd: VarMap, ppd: int) returns (clauses: seq<Clause>)
    requires ppd >= 1 && ChMap(ch) && CdMap(cd) && DayLookups(ch, cd, ppd)
    ensures clauses == DayCovers(ch, cd, ppd, cd.keys)
  {
    clauses := [];
    var j := 0;
    while j < |cd.keys|
      invariant 0 <= j <= |cd.keys|
      invariant clauses == DayCovers(ch, cd, ppd, cd.keys[..j])
    {
      var v := cd.keys[j];
      assert cd.keys[..j + 1][..j] == cd.keys[..j];
      assert v in cd.ids;
      assert DayCovers(ch, cd, ppd, cd.keys[..j + 1]) == DayCovers(ch, cd, ppd, cd.keys[..j]) + [DayCover(ch, cd, ppd, v)];
      var cl := DayClause(ch, cd, ppd, v);
      clauses := clauses + [cl];
      j := j + 1;
    }
    assert cd.keys[..j] == cd.keys;
  }

  lemma {:induction false} DayCoversLength(ch: VarMap, cd: VarMap, ppd: int, keys: seq<Var>)
    requires forall v :: v in keys ==> v.Cd? && v in cd.ids
    ensures |DayCovers(ch, cd, ppd, keys)| == |keys|
  {
    if keys != [] {
      DayCoversLength(ch, cd, ppd, keys[..|keys| - 1]);
    }
  }

  /** basic_encoder.py and encoder.py `relation_ch_cd`: the complete encoder's two loops without the
      membership tests; one link per slot key, then one cover per day key. */
  method RelationChCdStrict(ch: VarMap, cd: VarMap, ppd: int) returns (clauses: seq<Clause>)
    requires ppd >= 1 && ChMap(ch) && CdMap(cd) && DayLookups(ch, cd, ppd)
    ensures clauses == ChCdClauses(ch, cd, ppd)
    ensures |clauses| == |ch.keys| + |cd.keys|
  {
    var links := LinkDays(ch, cd, ppd);
    var covers := CoverDays(ch, cd, ppd);
    DayCoversLength(ch, cd, ppd, cd.keys);
    clauses := links + covers;
  }

  /** On the full grid every lookup of `relation_ch_cd` succeeds. */
  lemma GridDayLookups(inst: Instance, pv: ProblemVars)
    requires Shaped(inst, pv) && FullGrid(inst, pv)
    ensures DayLookups(pv.ch, pv.cd, inst.periodsPerDay)
  {
    var ppd := inst.periodsPerDay;
    forall v | v in pv.ch.ids
      ensures DayKey(v, ppd) in pv.cd.ids
    {
      SlotDayInGrid(v.h, ppd, inst.numDays);
    }
    forall v, h | v in pv.cd.ids && h in HoursForDay(v.d, ppd)
      ensures Ch(v.c, h) in pv.ch.ids
    {
      DayHoursInGrid(v.d, ppd, inst.numDays, h);
    }
  }

  // ---------------------------------------------------------------------
  // time_slot_availability without membership test

  /** basic_encoder.py `time_slot_availability`: one unit clause per unavailability, its slot looked
      up without a test, so the list is the complete encoder's and no entry is skipped. */
  method TimeSlotAvailabilityStrict(ch: VarMap, us: seq<Unavailability>, ppd: int) returns (clauses: seq<Clause>)
    requires forall u :: u in us ==> Ch(u.courseId, UnavailableSlot(u, ppd)) in ch.ids
    ensures clauses == AvailabilityClauses(ch, us, ppd)
    ensures |clauses| == |us|
  {
    clauses := [];
    var i := 0;
    while i < |us|
      invariant 0 <= i <= |us|
      invariant clauses == AvailabilityClauses(ch, us[..i], ppd) && |clauses| == i
    {
      var u := us[i];
      assert us[..i + 1][..i] == us[..i];
      var hour := u.day * ppd + u.dayPeriod;
      clauses := clauses + [[-ch.ids[Ch(u.courseId, hour)]]];
      i := i + 1;
    }
    assert us[..i] == us;
  }

  // ---------------------------------------------------------------------
  // c_in_k

  /** The inner loop of `c_in_k` for one curriculum k: k once for each occurrence of c in `courses`. */
  function Occurrences(c: CourseId, courses: seq<CourseId>, k: CurriculumId): seq<CurriculumId> {
    if courses == [] then []
    else Occurrences(c, courses[..|courses| - 1], k) + (if courses[|courses| - 1] == c then [k] else [])
  }

  /** What `c_in_k` returns: the curricula of `kids` that list c, in the order of `kids`. */
  function CurriculaOf(c: CourseId, kids: seq<CurriculumId>, curricula: map<CurriculumId, Curriculum>): seq<CurriculumId>
    requires forall k :: k in kids ==> k in curricula
  {
    if kids == [] then []
    else
      var k := kids[|kids| - 1];
      CurriculaOf(c, kids[..|kids| - 1], curricula) + Occurrences(c, curricula[k].courses, k)
  }

  /** basic_encoder.py and encoder.py `c_in_k`. */
  method CInK(c: CourseId, kids: seq<CurriculumId>, curricula: map<CurriculumId, Curriculum>) returns (out: seq<CurriculumId>)
    requires forall k :: k in kids ==> k in curricula
    ensures out == CurriculaOf(c, kids, curricula)
  {
    out := [];
    var i := 0;
    while i < |kids|
      invariant 0 <= i <= |kids|
      invariant out == CurriculaOf(c, kids[..i], curricula)
    {
      var k := kids[i];
      assert kids[..i + 1][..i] == kids[..i];
      var courses := curricula[k].courses;
      ghost var before := out;
      var j := 0;
      while j < |courses|
        invariant 0 <= j <= |courses|
        invariant out == before + Occurrences(c, courses[..j], k)
      {
        assert courses[..j + 1][..j] == courses[..j];
        if courses[j] == c {
          out := out + [k];
        } else {
          assert Occurrences(c, courses[..j + 1], k) == Occurrences(c, courses[..j], k) + [];
        }
        j := j + 1;
      }
      assert courses[..j] == courses;
      i := i + 1;
    }
    assert kids[..i] == kids;
  }

  lemma {:induction false} OccurrencesSpec(c: CourseId, courses: seq<CourseId>, k: CurriculumId)
    ensures forall x :: x in Occurrences(c, courses, k) ==> x == k
    ensures k in Occurrences(c, courses, k) <==> c in courses
    ensures Distinct(courses) ==> Occurrences(c, courses, k) == if c in courses then [k] else []
  {
    if courses != [] {
      var init, last := courses[..|courses| - 1], courses[|courses| - 1];
      OccurrencesSpec(c, init, k);
      assert courses == init + [last];
      if Distinct(courses) {
        DistinctInit(courses);
      }
    }
  }

  /** `c_in_k(c)` lists exactly the curricula that contain c; when neither the curricula nor their
      course lists repeat an entry, it lists each of them once. */
  lemma {:induction false} CurriculaOfSpec(c: CourseId, kids: seq<CurriculumId>, curricula: map<CurriculumId, Curriculum>)
    requires forall k :: k in kids ==> k in curricula
    ensures forall k :: k in CurriculaOf(c, kids, curricula) <==> k in kids && c in curricula[k].courses
    ensures Distinct(kids) && (forall k :: k in kids ==> Distinct(curricula[k].courses))
            ==> Distinct(CurriculaOf(c, kids, curricula))
  {
    if kids != [] {
      var init, k := kids[..|kids| - 1], kids[|kids| - 1];
      assert kids == init + [k];
      assert forall x :: x in init ==> x in kids;
      CurriculaOfSpec(c, init, curricula);
      OccurrencesSpec(c, curricula[k].courses, k);
      if Distinct(kids) && (forall x :: x in kids ==> Distinct(curricula[x].courses)) {
        DistinctInit(kids);
        DistinctAppend(CurriculaOf(c, init, curricula), Occurrences(c, curricula[k].courses, k));
      }
    }
  }

  // ---------------------------------------------------------------------
  // relation_ch_kh without membership tests

  /** For a slot key v = (c, h) and the list `ks` that `c_in_k` returned: a link to (k, h) for every
      k of `ks` whose key exists. */
  function LinksVia(ch: VarMap, kh: VarMap, v: Var, ks: seq<CurriculumId>): seq<Clause>
    requires v.Ch? && v in ch.ids
  {
    if ks == [] then []
    else
      var k := ks[|ks| - 1];
      LinksVia(ch, kh, v, ks[..|ks| - 1]) + (if Kh(k, v.h) in kh.ids then [[-ch.ids[v], kh.ids[Kh(k, v.h)]]] else [])
  }

  /** The first loop: the links of every slot key of `keys`, through `c_in_k`. */
  function ListedLinks(ch: VarMap, kh: VarMap, kids: seq<CurriculumId>, curricula: map<CurriculumId, Curriculum>, keys: seq<Var>): seq<Clause>
    requires forall v :: v in keys ==> v.Ch? && v in ch.ids
    requires forall k :: k in kids ==> k in curricula
  {
    if keys == [] then []
    else
      var v := keys[|keys| - 1];
      ListedLinks(ch, kh, kids, curricula, keys[..|keys| - 1]) + LinksVia(ch, kh, v, CurriculaOf(v.c, kids, curricula))
  }

  /** The second loop: a cover clause for every key (k, h) whose curriculum has a course. */
  function NonEmptyCovers(ch: VarMap, kh: VarMap, curricula: map<CurriculumId, Curriculum>, keys: seq<Var>): seq<Clause>
    requires forall v :: v in keys ==> v.Kh? && v in kh.ids && v.k in curricula
  {
    if keys == [] then []
    else
      var v := keys[|keys| - 1];
      NonEmptyCovers(ch, kh, curricula, keys[..|keys| - 1])
        + (if curricula[v.k].courses != [] then [KhCover(ch, kh, curricula, v)] else [])
  }

  /** The clause list of the unchecked `relation_ch_kh`. */
  function ListedChKhClauses(ch: VarMap, kh: VarMap, kids: seq<CurriculumId>, curricula: map<CurriculumId, Curriculum>): seq<Clause>
    requires ChMap(ch) && KhOver(kh, curricula)
    requires forall k :: k in kids ==> k in curricula
  {
    ListedLinks(ch, kh, kids, curricula, ch.keys) + NonEmptyCovers(ch, kh, curricula, kh.keys)
  }

  /** Every lookup `ch[course, h]` of the second loop finds its key. */
  ghost predicate CurriculumLookups(ch: VarMap, kh: VarMap, curricula: map<CurriculumId, Curriculum>)
    requires KhOver(kh, curricula)
  {
    forall v, c :: v in kh.ids && c in curricula[v.k].courses ==> Ch(c, v.h) in ch.ids
  }

  /** The inner loop over `c_in_k`'s result for one slot key. */
  method LinkVia(ch: VarMap, kh: VarMap, v: Var, ks: seq<CurriculumId>) returns (block: seq<Clause>)
    requires v.Ch? && v in ch.ids
    ensures block == LinksVia(ch, kh, v, ks)
  {
    block := [];
    var j := 0;
    while j < |ks|
      invariant 0 <= j <= |ks|
      invariant block == LinksVia(ch, kh, v, ks[..j])
    {
      assert ks[..j + 1][..j] == ks[..j];
      if Kh(ks[j], v.h) in kh.ids {
        block := block + [[-ch.ids[v], kh.ids[Kh(ks[j], v.h)]]];
      }
      j := j + 1;
    }
    assert ks[..j] == ks;
  }

  /** `[ch[course, h] for course in courses]` for a key (k, h). */
  method CurriculumSlots(ch: VarMap, kh: VarMap, curricula: map<CurriculumId, Curriculum>, v: Var) returns (aux: seq<int>)
    requires KhOver(kh, curricula) && CurriculumLookups(ch, kh, curricula) && v in kh.ids
    ensures aux == Present(ch, CoursesAt(curricula[v.k].courses, v.h))
  {
    var courses := curricula[v.k].courses;
    forall u | u in CoursesAt(courses, v.h)
      ensures u in ch.ids
    {
      var i :| 0 <= i < |courses| && CoursesAt(courses, v.h)[i] == u;
      assert courses[i] in courses;
    }
    PresentAll(ch, CoursesAt(courses, v.h));
    aux := seq(|courses|, i requires 0 <= i < |courses| => ch.ids[Ch(courses[i], v.h)]);
  }

  method LinkListed(ch: VarMap, kh: VarMap, kids: seq<CurriculumId>, curricula: map<CurriculumId, Curriculum>)
    returns (clauses: seq<Clause>)
    requires ChMap(ch) && forall k :: k in kids ==> k in curricula
    ensures clauses == ListedLinks(ch, kh, kids, curricula, ch.keys)
  {
    clauses := [];
    var i := 0;
    while i < |ch.keys|
      invariant 0 <= i <= |ch.keys|
      invariant clauses == ListedLinks(ch, kh, kids, curricula, ch.keys[..i])
    {
      var v := ch.keys[i];
      assert ch.keys[..i + 1][..i] == ch.keys[..i];
      var ks := CInK(v.c, kids, curricula);
      var block := LinkVia(ch, kh, v, ks);
      clauses := clauses + block;
      i := i + 1;
    }
    assert ch.keys[..i] == ch.keys;
  }

  /** The clause `[-kh[(k, h)]] + aux` of one curriculum-slot key (k, h). */
  method CurriculumClause(ch: VarMap, kh: VarMap, curricula: map<CurriculumId, Curriculum>, v: Var) returns (cl: Clause)
    requires KhOver(kh, curricula) && CurriculumLookups(ch, kh, curricula) && v in kh.ids
    ensures cl == KhCover(ch, kh, curricula, v)
  {
    var aux := CurriculumSlots(ch, kh, curricula, v);
    cl := [-kh.ids[v]] + aux;
  }

  method CoverNonEmpty(ch: VarMap, kh: VarMap, curricula: map<CurriculumId, Curriculum>) returns (clauses: seq<Clause>)
    requires KhOver(kh, curricula) && CurriculumLookups(ch, kh, curricula)
    ensures clauses == NonEmptyCovers(ch, kh, curricula, kh.keys)
  {
    clauses := [];
    var j := 0;
    while j < |kh.keys|
      invariant 0 <= j <= |kh.keys|
      invariant clauses == NonEmptyCovers(ch, kh, curricula, kh.keys[..j])
    {
      var v := kh.keys[j];
      assert kh.keys[..j + 1][..j] == kh.keys[..j];
      assert v in kh.ids;
      if |curricula[v.k].courses| > 0 {
        assert NonEmptyCovers(ch, kh, curricula, kh.keys[..j + 1])
            == NonEmptyCovers(ch, kh, curricula, kh.keys[..j]) + [KhCover(ch, kh, curricula, v)];
        var cl := CurriculumClause(ch, kh, curricula, v);
        clauses := clauses + [cl];
      } else {
        assert NonEmptyCovers(ch, kh, curricula, kh.keys[..j + 1]) == NonEmptyCovers(ch, kh, curricula, kh.keys[..j]) + [];
      }
      j := j + 1;
    }
    assert kh.keys[..j] == kh.keys;
  }

  /** basic_encoder.py and encoder.py `relation_ch_kh`: the links go through `c_in_k`, the lookups are
      unchecked, and a curriculum without courses gets no cover clause. */
  method RelationChKhStrict(ch: VarMap, kh: VarMap, kids: seq<CurriculumId>, curricula: map<CurriculumId, Curriculum>)
    returns (clauses: seq<Clause>)
    requires ChMap(ch) && KhOver(kh, curricula) && CurriculumLookups(ch, kh, curricula)
    requires forall k :: k in kids ==> k in curricula
    ensures clauses == ListedChKhClauses(ch, kh, kids, curricula)
  {
    var links := LinkListed(ch, kh, kids, curricula);
    var covers := CoverNonEmpty(ch, kh, curricula);
    clauses := links + covers;
  }

  lemma {:induction false} LinksViaAppend(ch: VarMap, kh: VarMap, v: Var, ks: seq<CurriculumId>, ks': seq<CurriculumId>)
    requires v.Ch? && v in ch.ids
    ensures LinksVia(ch, kh, v, ks + ks') == LinksVia(ch, kh, v, ks) + LinksVia(ch, kh, v, ks')
  {
    if ks' == [] {
      assert ks + ks' == ks;
    } else {
      var init := ks'[..|ks'| - 1];
      LinksViaAppend(ch, kh, v, ks, init);
      assert (ks + ks')[..|ks + ks'| - 1] == ks + init;
    }
  }

  /** Through `c_in_k`, a slot key gets the same links, in the same order, as the complete encoder's
      test `c in curr.courses`, when no course list repeats a course. */
  lemma {:induction false} LinksViaCurricula(ch: VarMap, kh: VarMap, curricula: map<CurriculumId, Curriculum>,
                                             kids: seq<CurriculumId>, v: Var)
    requires v.Ch? && v in ch.ids
    requires forall k :: k in kids ==> k in curricula && Distinct(curricula[k].courses)
    ensures LinksVia(ch, kh, v, CurriculaOf(v.c, kids, curricula)) == CurriculumLinks(ch, kh, curricula, kids, v)
  {
    if kids != [] {
      var init, k := kids[..|kids| - 1], kids[|kids| - 1];
      assert forall x :: x in init ==> x in kids;
      LinksViaCurricula(ch, kh, curricula, init, v);
      var occ := Occurrences(v.c, curricula[k].courses, k);
      OccurrencesSpec(v.c, curricula[k].courses, k);
      LinksViaAppend(ch, kh, v, CurriculaOf(v.c, init, curricula), occ);
      if occ != [] {
        assert occ[..0] == [];
      }
    }
  }

  lemma {:induction false} ListedLinksAgree(ch: VarMap, kh: VarMap, kids: seq<CurriculumId>,
                                            curricula: map<CurriculumId, Curriculum>, keys: seq<Var>)
    requires forall v :: v in keys ==> v.Ch? && v in ch.ids
    requires forall k :: k in kids ==> k in curricula && Distinct(curricula[k].courses)
    ensures ListedLinks(ch, kh, kids, curricula, keys) == KhLinks(ch, kh, curricula, kids, keys)
  {
    if keys != [] {
      var init, v := keys[..|keys| - 1], keys[|keys| - 1];
      assert forall u :: u in init ==> u in keys;
      ListedLinksAgree(ch, kh, kids, curricula, init);
      LinksViaCurricula(ch, kh, curricula, kids, v);
    }
  }

  lemma {:induction false} NonEmptyCoversMeaning(a: set<int>, ch: VarMap, kh: VarMap, curricula: map<CurriculumId, Curriculum>,
                                                 keys: seq<Var>)
    requires Positive(ch) && Positive(kh)
    requires forall v :: v in keys ==> v.Kh? && v in kh.ids && v.k in curricula
    ensures Sat(a, NonEmptyCovers(ch, kh, curricula, keys))
        <==> (forall v :: v in keys && curricula[v.k].courses != [] && kh.ids[v] in a ==>
                exists c :: c in curricula[v.k].courses && Ch(c, v.h) in ch.ids && ch.ids[Ch(c, v.h)] in a)
  {
    if keys != [] {
      var init, v := keys[..|keys| - 1], keys[|keys| - 1];
      assert forall u :: u in init ==> u in keys;
      assert keys == init + [v];
      NonEmptyCoversMeaning(a, ch, kh, curricula, init);
      var tail := if curricula[v.k].courses != [] then [KhCover(ch, kh, curricula, v)] else [];
      SatAppend(a, NonEmptyCovers(ch, kh, curricula, init), tail);
      if curricula[v.k].courses != [] {
        assert [v][..0] == [];
        assert KhCovers(ch, kh, curricula, [v]) == tail;
        KhCoversMeaning(a, ch, kh, curricula, [v]);
      }
    }
  }

  /** An assignment satisfies the unchecked `relation_ch_kh` exactly when a taught course makes every
      curriculum that lists it busy in that slot (where that key exists), and a busy slot of a
      curriculum with courses has one of them taught in it; a curriculum without courses is left free. */
  lemma ListedChKhMeaning(a: set<int>, ch: VarMap, kh: VarMap, kids: seq<CurriculumId>, curricula: map<CurriculumId, Curriculum>)
    requires ChMap(ch) && KhOver(kh, curricula) && Positive(ch) && Positive(kh)
    requires forall k :: k in kids ==> k in curricula && Distinct(curricula[k].courses)
    ensures Sat(a, ListedChKhClauses(ch, kh, kids, curricula))
        <==> && (forall v, k :: (v in ch.ids && k in kids && v.c in curricula[k].courses && Kh(k, v.h) in kh.ids
                                  && ch.ids[v] in a) ==> kh.ids[Kh(k, v.h)] in a)
             && (forall v :: v in kh.ids && curricula[v.k].courses != [] && kh.ids[v] in a ==>
                   exists c :: c in curricula[v.k].courses && Ch(c, v.h) in ch.ids && ch.ids[Ch(c, v.h)] in a)
  {
    ListedLinksAgree(ch, kh, kids, curricula, ch.keys);
    KhLinksMeaning(a, ch, kh, curricula, kids, ch.keys);
    NonEmptyCoversMeaning(a, ch, kh, curricula, kh.keys);
    SatAppend(a, ListedLinks(ch, kh, kids, curricula, ch.keys), NonEmptyCovers(ch, kh, curricula, kh.keys));
  }

  /** When every curriculum has a course, the unchecked `relation_ch_kh` emits exactly the complete
      encoder's clause list. */
  lemma ListedChKhAgrees(ch: VarMap, kh: VarMap, kids: seq<CurriculumId>, curricula: map<CurriculumId, Curriculum>)
    requires ChMap(ch) && KhOver(kh, curricula)
    requires forall k :: k in kids ==> k in curricula && Distinct(curricula[k].courses)
    requires forall k :: k in curricula ==> curricula[k].courses != []
    ensures ListedChKhClauses(ch, kh, kids, curricula) == ChKhClauses(ch, kh, kids, curricula)
  {
    ListedLinksAgree(ch, kh, kids, curricula, ch.keys);
    NonEmptyCoversAll(ch, kh, curricula, kh.keys);
  }

  lemma {:induction false} NonEmptyCoversAll(ch: VarMap, kh: VarMap, curricula: map<CurriculumId, Curriculum>, keys: seq<Var>)
    requires forall v :: v in keys ==> v.Kh? && v in kh.ids && v.k in curricula
    requires forall k :: k in curricula ==> curricula[k].courses != []
    ensures NonEmptyCovers(ch, kh, curricula, keys) == KhCovers(ch, kh, curricula, keys)
  {
    if keys != [] {
      var init := keys[..|keys| - 1];
      assert forall u :: u in init ==> u in keys;
      NonEmptyCoversAll(ch, kh, curricula, init);
    }
  }
}
