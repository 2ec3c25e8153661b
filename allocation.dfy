/**
 * The variable allocators of the complete encoder (complete_encode.py,
 * `get_ch`, `get_cd`, `get_cr`, `get_kh`, `get_chr`): each visits its keys in
 * nested-loop order, asks the pool for the next id, stores it under the key and
 * records the key under the id in `id_to_var`.
 */
module Allocation {
  import opened Seqs
  import opened Timetabling
  import opened Variables

  /** One allocation step: the key gets the pool's next id in the dictionary and in `id_to_var`. */
  method Allocate(k: Var, pool: IdPool, m: VarMap, idToVar: map<int, Var>, ghost keys: seq<Var>, ghost base: int)
    returns (m': VarMap, idToVar': map<int, Var>)
    requires m == Dense(keys, base) && pool.top == base - 1 + |keys|
    modifies pool
    ensures m' == Dense(keys + [k], base)
    ensures idToVar' == idToVar[base + |keys| := k]
    ensures pool.top == base - 1 + |keys + [k]|
  {
    var id := pool.Id();
    DenseSnoc(keys, k, base);
    m' := m.Put(k, id);
    idToVar' := idToVar[id := k];
  }

  /** The inner loop of `get_ch` (`get_cd`, `get_kh`): keys (x, i) for i < n. */
  method AllocateSlotRow(f: SlotFamily, x: string, n: nat, pool: IdPool, m: VarMap,
                         idToVar: map<int, Var>, ghost idToVar0: map<int, Var>, ghost keys: seq<Var>, ghost base: int)
    returns (m': VarMap, idToVar': map<int, Var>)
    requires m == Dense(keys, base) && idToVar == Record(idToVar0, keys, base)
    requires pool.top == base - 1 + |keys|
    modifies pool
    ensures m' == Dense(keys + SlotRow(f, x, n), base)
    ensures idToVar' == Record(idToVar0, keys + SlotRow(f, x, n), base)
    ensures pool.top == base - 1 + |keys + SlotRow(f, x, n)|
  {
    ghost var ks := keys;
    m', idToVar' := m, idToVar;
    var j := 0;
    while j < n
      invariant 0 <= j <= n
      invariant ks == keys + SlotRow(f, x, j)
      invariant m' == Dense(ks, base)
      invariant idToVar' == Record(idToVar0, ks, base)
      invariant pool.top == base - 1 + |ks|
    {
      RecordSnoc(idToVar0, ks, Slot(f, x, j), base);
      AppendAssoc(keys, SlotRow(f, x, j), [Slot(f, x, j)]);
      assert SlotRow(f, x, j + 1) == SlotRow(f, x, j) + [Slot(f, x, j)];
      m', idToVar' := Allocate(Slot(f, x, j), pool, m', idToVar', ks, base);
      ks := ks + [Slot(f, x, j)];
      j := j + 1;
    }
  }

  /** `get_ch` (`get_cd`, `get_kh` with the CD and KH families): keys (x, i) for x in `xs`, i < n. */
  method GetSlots(f: SlotFamily, xs: seq<string>, n: nat, pool: IdPool, idToVar: map<int, Var>)
    returns (m: VarMap, idToVar': map<int, Var>)
    modifies pool
    ensures m == Dense(SlotGrid(f, xs, n), old(pool.top) + 1)
    ensures idToVar' == Record(idToVar, SlotGrid(f, xs, n), old(pool.top) + 1)
    ensures pool.top == old(pool.top) + |SlotGrid(f, xs, n)|
  {
    ghost var base := pool.top + 1;
    ghost var keys: seq<Var> := [];
    m, idToVar' := VarMap([], map[]), idToVar;
    var i := 0;
    while i < |xs|
      invariant 0 <= i <= |xs|
      invariant keys == SlotGrid(f, xs[..i], n)
      invariant m == Dense(keys, base)
      invariant idToVar' == Record(idToVar, keys, base)
      invariant pool.top == base - 1 + |keys|
    {
      m, idToVar' := AllocateSlotRow(f, xs[i], n, pool, m, idToVar', idToVar, keys, base);
      SlotGridSnoc(f, xs, i, n);
      keys := keys + SlotRow(f, xs[i], n);
      i := i + 1;
    }
    assert xs[..|xs|] == xs;
  }

  /** The inner loop of `get_cr`: keys (c, r) for r in `rs`. */
  method AllocateCrRow(c: CourseId, rs: seq<RoomId>, pool: IdPool, cr: VarMap,
                       idToVar: map<int, Var>, ghost idToVar0: map<int, Var>, ghost keys: seq<Var>, ghost base: int)
    returns (cr': VarMap, idToVar': map<int, Var>)
    requires cr == Dense(keys, base) && idToVar == Record(idToVar0, keys, base)
    requires pool.top == base - 1 + |keys|
    modifies pool
    ensures cr' == Dense(keys + CrRow(c, rs), base)
    ensures idToVar' == Record(idToVar0, keys + CrRow(c, rs), base)
    ensures pool.top == base - 1 + |keys + CrRow(c, rs)|
  {
    ghost var ks := keys;
    cr', idToVar' := cr, idToVar;
    var j := 0;
    while j < |rs|
      invariant 0 <= j <= |rs|
      invariant ks == keys + CrRow(c, rs[..j])
      invariant cr' == Dense(ks, base)
      invariant idToVar' == Record(idToVar0, ks, base)
      invariant pool.top == base - 1 + |ks|
    {
      RecordSnoc(idToVar0, ks, Cr(c, rs[j]), base);
      CrRowSnoc(c, rs, j);
      AppendAssoc(keys, CrRow(c, rs[..j]), [Cr(c, rs[j])]);
      cr', idToVar' := Allocate(Cr(c, rs[j]), pool, cr', idToVar', ks, base);
      ks := ks + [Cr(c, rs[j])];
      j := j + 1;
    }
    assert rs[..|rs|] == rs;
  }

  /** `get_cr`: keys (c, r) for c in `cs`, r in `rs`. */
  method GetCr(cs: seq<CourseId>, rs: seq<RoomId>, pool: IdPool, idToVar: map<int, Var>)
    returns (cr: VarMap, idToVar': map<int, Var>)
    modifies pool
    ensures cr == Dense(CrGrid(cs, rs), old(pool.top) + 1)
    ensures idToVar' == Record(idToVar, CrGrid(cs, rs), old(pool.top) + 1)
    ensures pool.top == old(pool.top) + |CrGrid(cs, rs)|
  {
    ghost var base := pool.top + 1;
    ghost var keys: seq<Var> := [];
    cr, idToVar' := VarMap([], map[]), idToVar;
    var i := 0;
    while i < |cs|
      invariant 0 <= i <= |cs|
      invariant keys == CrGrid(cs[..i], rs)
      invariant cr == Dense(keys, base)
      invariant idToVar' == Record(idToVar, keys, base)
      invariant pool.top == base - 1 + |keys|
    {
      cr, idToVar' := AllocateCrRow(cs[i], rs, pool, cr, idToVar', idToVar, keys, base);
      assert cs[..i + 1][..i] == cs[..i];
      keys := keys + CrRow(cs[i], rs);
      i := i + 1;
    }
    assert cs[..|cs|] == cs;
  }

  /** The innermost loop of `get_chr`: keys (c, h, r) for r in `rs`. */
  method AllocateChrRow(c: CourseId, h: int, rs: seq<RoomId>, pool: IdPool, chr: VarMap,
                        idToVar: map<int, Var>, ghost idToVar0: map<int, Var>, ghost keys: seq<Var>, ghost base: int)
    returns (chr': VarMap, idToVar': map<int, Var>)
    requires chr == Dense(keys, base) && idToVar == Record(idToVar0, keys, base)
    requires pool.top == base - 1 + |keys|
    modifies pool
    ensures chr' == Dense(keys + ChrRow(c, h, rs), base)
    ensures idToVar' == Record(idToVar0, keys + ChrRow(c, h, rs), base)
    ensures pool.top == base - 1 + |keys + ChrRow(c, h, rs)|
  {
    ghost var ks := keys;
    chr', idToVar' := chr, idToVar;
    var j := 0;
    while j < |rs|
      invariant 0 <= j <= |rs|
      invariant ks == keys + ChrRow(c, h, rs[..j])
      invariant chr' == Dense(ks, base)
      invariant idToVar' == Record(idToVar0, ks, base)
      invariant pool.top == base - 1 + |ks|
    {
      RecordSnoc(idToVar0, ks, Chr(c, h, rs[j]), base);
      chr', idToVar' := Allocate(Chr(c, h, rs[j]), pool, chr', idToVar', ks, base);
      assert rs[..j + 1][..j] == rs[..j];
      ks := ks + [Chr(c, h, rs[j])];
      j := j + 1;
    }
    assert rs[..|rs|] == rs;
  }

  /** The two inner loops of `get_chr`: keys (c, h, r) for h < n, r in `rs`. */
  method AllocateChrBlock(c: CourseId, n: nat, rs: seq<RoomId>, pool: IdPool, chr: VarMap,
                          idToVar: map<int, Var>, ghost idToVar0: map<int, Var>, ghost keys: seq<Var>, ghost base: int)
    returns (chr': VarMap, idToVar': map<int, Var>)
    requires chr == Dense(keys, base) && idToVar == Record(idToVar0, keys, base)
    requires pool.top == base - 1 + |keys|
    modifies pool
    ensures chr' == Dense(keys + ChrBlock(c, n, rs), base)
    ensures idToVar' == Record(idToVar0, keys + ChrBlock(c, n, rs), base)
    ensures pool.top == base - 1 + |keys + ChrBlock(c, n, rs)|
  {
    ghost var ks := keys;
    chr', idToVar' := chr, idToVar;
    var h := 0;
    while h < n
      invariant 0 <= h <= n
      invariant ks == keys + ChrBlock(c, h, rs)
      invariant chr' == Dense(ks, base)
      invariant idToVar' == Record(idToVar0, ks, base)
      invariant pool.top == base - 1 + |ks|
    {
      chr', idToVar' := AllocateChrRow(c, h, rs, pool, chr', idToVar', idToVar0, ks, base);
      ks := ks + ChrRow(c, h, rs);
      h := h + 1;
    }
  }

  /** `get_chr`: keys (c, h, r) for c in `cs`, h < n, r in `rs`. */
  method GetChr(cs: seq<CourseId>, rs: seq<RoomId>, n: nat, pool: IdPool, idToVar: map<int, Var>)
    returns (chr: VarMap, idToVar': map<int, Var>)
    modifies pool
    ensures chr == Dense(ChrGrid(cs, n, rs), old(pool.top) + 1)
    ensures idToVar' == Record(idToVar, ChrGrid(cs, n, rs), old(pool.top) + 1)
    ensures pool.top == old(pool.top) + |ChrGrid(cs, n, rs)|
  {
    ghost var base := pool.top + 1;
    ghost var keys: seq<Var> := [];
    chr, idToVar' := VarMap([], map[]), idToVar;
    var i := 0;
    while i < |cs|
      invariant 0 <= i <= |cs|
      invariant keys == ChrGrid(cs[..i], n, rs)
      invariant chr == Dense(keys, base)
      invariant idToVar' == Record(idToVar, keys, base)
      invariant pool.top == base - 1 + |keys|
    {
      chr, idToVar' := AllocateChrBlock(cs[i], n, rs, pool, chr, idToVar', idToVar, keys, base);
      assert cs[..i + 1][..i] == cs[..i];
      keys := keys + ChrBlock(cs[i], n, rs);
      i := i + 1;
    }
    assert cs[..|cs|] == cs;
  }

  // ---------------------------------------------------------------------
  // The allocation of one section encoder: a fresh pool at 1, an empty `id_to_var`,
  // then get_ch, get_cd, get_cr, get_kh (and get_chr for section 4.4)

  /** The family dictionaries, `id_to_var` and the pool's top after the allocation calls. */
  datatype ProblemVars = ProblemVars(ch: VarMap, cd: VarMap, cr: VarMap, kh: VarMap, chr: VarMap,
                                     idToVar: map<int, Var>, top: int)

  /** The `(c, h, r)` keys, allocated only by the section 4.4 encoder. */
  function ChrKeys(cs: seq<CourseId>, n: nat, rs: seq<RoomId>, withChr: bool): seq<Var> {
    if withChr then ChrGrid(cs, n, rs) else []
  }

  /** Five key runs allocated one after the other from id 1: each family is dense from where
      the previous one stopped, `id_to_var` records all of them, and the pool stopped at the last id. */
  ghost predicate LaidOut(pv: ProblemVars, k1: seq<Var>, k2: seq<Var>, k3: seq<Var>, k4: seq<Var>, k5: seq<Var>) {
    && pv.ch == Dense(k1, 1)
    && pv.cd == Dense(k2, 1 + |k1|)
    && pv.cr == Dense(k3, 1 + |k1| + |k2|)
    && pv.kh == Dense(k4, 1 + |k1| + |k2| + |k3|)
    && pv.chr == Dense(k5, 1 + |k1| + |k2| + |k3| + |k4|)
    && pv.idToVar == Record(map[], k1 + k2 + k3 + k4 + k5, 1)
    && pv.top == |k1| + |k2| + |k3| + |k4| + |k5|
  }

  /** The layout of the section encoders: CH, CD, CR, KH (and CHR) grids in this order. */
  ghost predicate IsLayout(pv: ProblemVars, cs: seq<CourseId>, ks: seq<CurriculumId>, rs: seq<RoomId>,
                           hours: nat, days: nat, withChr: bool) {
    LaidOut(pv, SlotGrid(CH, cs, hours), SlotGrid(CD, cs, days), CrGrid(cs, rs), SlotGrid(KH, ks, hours),
            ChrKeys(cs, hours, rs, withChr))
  }

  /** The four (five) allocation calls of complete_encode.py:528-531 and 633-637. */
  method GetProblemVars(inst: Instance, pool: IdPool, withChr: bool) returns (pv: ProblemVars)
    requires pool.top == 0
    modifies pool
    ensures IsLayout(pv, inst.courseIds, inst.curriculumIds, inst.roomIds, inst.TotalHours(), inst.numDays, withChr)
    ensures pool.top == pv.top
  {
    ghost var k1, k2, k3 := SlotGrid(CH, inst.courseIds, inst.TotalHours()), SlotGrid(CD, inst.courseIds, inst.numDays),
                            CrGrid(inst.courseIds, inst.roomIds);
    ghost var k4, k5 := SlotGrid(KH, inst.curriculumIds, inst.TotalHours()), ChrKeys(inst.courseIds, inst.TotalHours(), inst.roomIds, withChr);
    var idToVar: map<int, Var> := map[];
    var ch, cd, cr, kh, chr;
    ghost var b1 := pool.top + 1;
    ch, idToVar := GetSlots(CH, inst.courseIds, inst.TotalHours(), pool, idToVar);
    ghost var r1, b2 := idToVar, pool.top + 1;
    cd, idToVar := GetSlots(CD, inst.courseIds, inst.numDays, pool, idToVar);
    ghost var r2, b3 := idToVar, pool.top + 1;
    cr, idToVar := GetCr(inst.courseIds, inst.roomIds, pool, idToVar);
    ghost var r3, b4 := idToVar, pool.top + 1;
    kh, idToVar := GetSlots(KH, inst.curriculumIds, inst.TotalHours(), pool, idToVar);
    ghost var r4, b5 := idToVar, pool.top + 1;
    chr, idToVar := GetChrIf(withChr, inst.courseIds, inst.roomIds, inst.TotalHours(), pool, idToVar);
    pv := ProblemVars(ch, cd, cr, kh, chr, idToVar, pool.top);
    LaidOutChain(pv, k1, k2, k3, k4, k5, r1, r2, r3, r4, b1, b2, b3, b4, b5);
  }

  /** `get_chr` for the section 4.4 encoder; no keys otherwise. */
  method GetChrIf(withChr: bool, cs: seq<CourseId>, rs: seq<RoomId>, n: nat, pool: IdPool, idToVar: map<int, Var>)
    returns (chr: VarMap, idToVar': map<int, Var>)
    modifies pool
    ensures chr == Dense(ChrKeys(cs, n, rs, withChr), old(pool.top) + 1)
    ensures idToVar' == Record(idToVar, ChrKeys(cs, n, rs, withChr), old(pool.top) + 1)
    ensures pool.top == old(pool.top) + |ChrKeys(cs, n, rs, withChr)|
  {
    if withChr {
      chr, idToVar' := GetChr(cs, rs, n, pool, idToVar);
    } else {
      chr, idToVar' := VarMap([], map[]), idToVar;
    }
  }

  /** The five allocation calls, each dense from where the previous one stopped, lay the families out. */
  lemma LaidOutChain(pv: ProblemVars, k1: seq<Var>, k2: seq<Var>, k3: seq<Var>, k4: seq<Var>, k5: seq<Var>,
                     r1: map<int, Var>, r2: map<int, Var>, r3: map<int, Var>, r4: map<int, Var>,
                     b1: int, b2: int, b3: int, b4: int, b5: int)
    requires b1 == 1 && b2 == b1 + |k1| && b3 == b2 + |k2| && b4 == b3 + |k3| && b5 == b4 + |k4|
    requires pv.ch == Dense(k1, b1) && pv.cd == Dense(k2, b2) && pv.cr == Dense(k3, b3)
    requires pv.kh == Dense(k4, b4) && pv.chr == Dense(k5, b5)
    requires r1 == Record(map[], k1, b1) && r2 == Record(r1, k2, b2) && r3 == Record(r2, k3, b3)
    requires r4 == Record(r3, k4, b4) && pv.idToVar == Record(r4, k5, b5)
    requires pv.top == b5 - 1 + |k5|
    ensures LaidOut(pv, k1, k2, k3, k4, k5)
  {
    LaidOutParts(pv, k1, k2, k3, k4, k5, r1, r2, r3, r4, b1, b2, b3, b4, b5);
  }

  /** The conjuncts of `LaidOutChain`, one by one. */
  lemma LaidOutParts(pv: ProblemVars, k1: seq<Var>, k2: seq<Var>, k3: seq<Var>, k4: seq<Var>, k5: seq<Var>,
                     r1: map<int, Var>, r2: map<int, Var>, r3: map<int, Var>, r4: map<int, Var>,
                     b1: int, b2: int, b3: int, b4: int, b5: int)
    requires b1 == 1 && b2 == b1 + |k1| && b3 == b2 + |k2| && b4 == b3 + |k3| && b5 == b4 + |k4|
    requires pv.ch == Dense(k1, b1) && pv.cd == Dense(k2, b2) && pv.cr == Dense(k3, b3)
    requires pv.kh == Dense(k4, b4) && pv.chr == Dense(k5, b5)
    requires r1 == Record(map[], k1, b1) && r2 == Record(r1, k2, b2) && r3 == Record(r2, k3, b3)
    requires r4 == Record(r3, k4, b4) && pv.idToVar == Record(r4, k5, b5)
    requires pv.top == b5 - 1 + |k5|
    ensures pv.ch == Dense(k1, 1)
    ensures pv.cd == Dense(k2, 1 + |k1|)
    ensures pv.cr == Dense(k3, 1 + |k1| + |k2|)
    ensures pv.kh == Dense(k4, 1 + |k1| + |k2| + |k3|)
    ensures pv.chr == Dense(k5, 1 + |k1| + |k2| + |k3| + |k4|)
    ensures pv.idToVar == Record(map[], k1 + k2 + k3 + k4 + k5, 1)
    ensures pv.top == |k1| + |k2| + |k3| + |k4| + |k5|
  {
    DenseRebased(pv.ch, k1, b1, 1);
    DenseRebased(pv.cd, k2, b2, 1 + |k1|);
    DenseRebased(pv.cr, k3, b3, 1 + |k1| + |k2|);
    DenseRebased(pv.kh, k4, b4, 1 + |k1| + |k2| + |k3|);
    DenseRebased(pv.chr, k5, b5, 1 + |k1| + |k2| + |k3| + |k4|);
    RecordsChain(r1, r2, r3, r4, pv.idToVar, k1, k2, k3, k4, k5, b2, b3, b4, b5);
    TopChain(pv.top, k1, k2, k3, k4, k5, b5);
  }

  /** Five dense recordings, each from where the previous one stopped, are one dense recording. */
  lemma RecordsChain(r1: map<int, Var>, r2: map<int, Var>, r3: map<int, Var>, r4: map<int, Var>, r5: map<int, Var>,
                     k1: seq<Var>, k2: seq<Var>, k3: seq<Var>, k4: seq<Var>, k5: seq<Var>,
                     b2: int, b3: int, b4: int, b5: int)
    requires b2 == 1 + |k1| && b3 == b2 + |k2| && b4 == b3 + |k3| && b5 == b4 + |k4|
    requires r1 == Record(map[], k1, 1) && r2 == Record(r1, k2, b2) && r3 == Record(r2, k3, b3)
    requires r4 == Record(r3, k4, b4) && r5 == Record(r4, k5, b5)
    ensures r5 == Record(map[], k1 + k2 + k3 + k4 + k5, 1)
  {
    ChainBases(k1, k2, k3, k4, b2, b3, b4, b5);
    RecordsChain3(r1, r2, r3, k1, k2, k3, b2, b3);
    RecordExtended(r3, r4, k1 + k2 + k3, k4, b4);
    RecordExtended(r4, r5, k1 + k2 + k3 + k4, k5, b5);
  }

  /** The first three runs of `RecordsChain`. */
  lemma RecordsChain3(r1: map<int, Var>, r2: map<int, Var>, r3: map<int, Var>, k1: seq<Var>, k2: seq<Var>, k3: seq<Var>,
                      b2: int, b3: int)
    requires b2 == 1 + |k1| && b3 == 1 + |k1 + k2|
    requires r1 == Record(map[], k1, 1) && r2 == Record(r1, k2, b2) && r3 == Record(r2, k3, b3)
    ensures r3 == Record(map[], k1 + k2 + k3, 1)
  {
    RecordExtended(r1, r2, k1, k2, b2);
    RecordExtended(r2, r3, k1 + k2, k3, b3);
  }

  /** The base of each run is one above the length of the runs before it. */
  lemma ChainBases(k1: seq<Var>, k2: seq<Var>, k3: seq<Var>, k4: seq<Var>, b2: int, b3: int, b4: int, b5: int)
    requires b2 == 1 + |k1| && b3 == b2 + |k2| && b4 == b3 + |k3| && b5 == b4 + |k4|
    ensures b3 == 1 + |k1 + k2| && b4 == 1 + |k1 + k2 + k3| && b5 == 1 + |k1 + k2 + k3 + k4|
  {
  }

  /** The pool's last id after the five runs is the total number of keys. */
  lemma TopChain(top: int, k1: seq<Var>, k2: seq<Var>, k3: seq<Var>, k4: seq<Var>, k5: seq<Var>, b5: int)
    requires b5 == 1 + |k1| + |k2| + |k3| + |k4| && top == b5 - 1 + |k5|
    ensures top == |k1| + |k2| + |k3| + |k4| + |k5|
  {
  }

  /** A dense allocation described from a base equal to another one. */
  lemma DenseRebased(m: VarMap, keys: seq<Var>, base: int, base': int)
    requires m == Dense(keys, base) && base == base'
    ensures m == Dense(keys, base')
  {
  }

  /** Recording `tail` right after a dense recording of `head` from 1 is one dense recording of both. */
  lemma RecordExtended(r: map<int, Var>, r': map<int, Var>, head: seq<Var>, tail: seq<Var>, base: int)
    requires r == Record(map[], head, 1) && base == 1 + |head| && r' == Record(r, tail, base)
    ensures r' == Record(map[], head + tail, 1)
  {
    RecordAppend(map[], head, tail, 1);
  }

  /** Five dense recordings one after the other are one dense recording of the five runs. */
  lemma RecordChain(k1: seq<Var>, k2: seq<Var>, k3: seq<Var>, k4: seq<Var>, k5: seq<Var>)
    ensures Record(Record(Record(Record(Record(map[], k1, 1), k2, 1 + |k1|), k3, 1 + |k1| + |k2|),
                          k4, 1 + |k1| + |k2| + |k3|), k5, 1 + |k1| + |k2| + |k3| + |k4|)
         == Record(map[], k1 + k2 + k3 + k4 + k5, 1)
  {
    RecordAppend(map[], k1, k2, 1);
    RecordAppend(map[], k1 + k2, k3, 1);
    RecordAppend(map[], k1 + k2 + k3, k4, 1);
    RecordAppend(map[], k1 + k2 + k3 + k4, k5, 1);
  }

  /** `v` is stored under `id` in the dictionary of its family. */
  ghost predicate Names(pv: ProblemVars, v: Var, id: int) {
    || (v in pv.ch.ids && pv.ch.ids[v] == id)
    || (v in pv.cd.ids && pv.cd.ids[v] == id)
    || (v in pv.cr.ids && pv.cr.ids[v] == id)
    || (v in pv.kh.ids && pv.kh.ids[v] == id)
    || (v in pv.chr.ids && pv.chr.ids[v] == id)
  }

  /** `m` is inverted by `r`, and `r` is inverted by `m` on the ids lo .. hi-1. */
  ghost predicate InverseOn(m: VarMap, r: map<int, Var>, lo: int, hi: int) {
    && (forall v :: v in m.ids ==> m.ids[v] in r && r[m.ids[v]] == v)
    && (forall id :: lo <= id < hi ==> id in r && r[id] in m.ids && m.ids[r[id]] == id)
  }

  /** A dense run inside a dense recording is the inverse of its slice of `id_to_var`. */
  lemma SegmentInverse(pre: seq<Var>, keys: seq<Var>, post: seq<Var>, r: map<int, Var>, m: VarMap)
    requires RecordedAt(r, pre + keys + post) && DenseAt(m, keys, 1 + |pre|)
    ensures InverseOn(m, r, 1 + |pre|, 1 + |pre| + |keys|)
  {
    var all := pre + keys + post;
    forall v | v in m.ids
      ensures m.ids[v] in r && r[m.ids[v]] == v
    {
      var p :| 0 <= p < |keys| && keys[p] == v;
      assert all[|pre| + p] == keys[p];
    }
    forall id | 1 + |pre| <= id < 1 + |pre| + |keys|
      ensures id in r && r[id] in m.ids && m.ids[r[id]] == id
    {
      assert all[id - 1] == keys[id - 1 - |pre|];
    }
  }

  /** Runs that invert `id_to_var` on adjacent id ranges covering its domain make it the inverse of their union. */
  lemma UnionInverse(pv: ProblemVars, s2: int, s3: int, s4: int, s5: int)
    requires 0 <= s2 <= s3 <= s4 <= s5 <= pv.top
    requires InverseOn(pv.ch, pv.idToVar, 1, 1 + s2) && InverseOn(pv.cd, pv.idToVar, 1 + s2, 1 + s3)
    requires InverseOn(pv.cr, pv.idToVar, 1 + s3, 1 + s4) && InverseOn(pv.kh, pv.idToVar, 1 + s4, 1 + s5)
    requires InverseOn(pv.chr, pv.idToVar, 1 + s5, 1 + pv.top)
    requires forall id :: id in pv.idToVar <==> 1 <= id <= pv.top
    ensures forall v, id :: Names(pv, v, id) <==> id in pv.idToVar && pv.idToVar[id] == v
  {
    var r := pv.idToVar;
    forall id | id in r
      ensures Names(pv, r[id], id)
    {
      if id < 1 + s2 {
      } else if id < 1 + s3 {
      } else if id < 1 + s4 {
      } else if id < 1 + s5 {
      } else {
      }
    }
  }

  /** The inverse property for five dense runs recorded one after the other. */
  lemma RunsInverse(k1: seq<Var>, k2: seq<Var>, k3: seq<Var>, k4: seq<Var>, k5: seq<Var>, pv: ProblemVars)
    requires DenseAt(pv.ch, k1, 1) && DenseAt(pv.cd, k2, 1 + |k1|) && DenseAt(pv.cr, k3, 1 + |k1| + |k2|)
    requires DenseAt(pv.kh, k4, 1 + |k1| + |k2| + |k3|) && DenseAt(pv.chr, k5, 1 + |k1| + |k2| + |k3| + |k4|)
    requires RecordedAt(pv.idToVar, k1 + k2 + k3 + k4 + k5)
    requires pv.top == |k1| + |k2| + |k3| + |k4| + |k5|
    ensures forall id :: id in pv.idToVar <==> 1 <= id <= pv.top
    ensures forall v, id :: Names(pv, v, id) <==> id in pv.idToVar && pv.idToVar[id] == v
  {
    RunsSegments(k1, k2, k3, k4, k5, pv);
    UnionInverse(pv, |k1|, |k1| + |k2|, |k1| + |k2| + |k3|, |k1| + |k2| + |k3| + |k4|);
  }

  /** Each of the five runs is inverse to its stretch of `id_to_var`. */
  lemma RunsSegments(k1: seq<Var>, k2: seq<Var>, k3: seq<Var>, k4: seq<Var>, k5: seq<Var>, pv: ProblemVars)
    requires DenseAt(pv.ch, k1, 1) && DenseAt(pv.cd, k2, 1 + |k1|) && DenseAt(pv.cr, k3, 1 + |k1| + |k2|)
    requires DenseAt(pv.kh, k4, 1 + |k1| + |k2| + |k3|) && DenseAt(pv.chr, k5, 1 + |k1| + |k2| + |k3| + |k4|)
    requires RecordedAt(pv.idToVar, k1 + k2 + k3 + k4 + k5)
    ensures InverseOn(pv.ch, pv.idToVar, 1, 1 + |k1|)
    ensures InverseOn(pv.cd, pv.idToVar, 1 + |k1|, 1 + (|k1| + |k2|))
    ensures InverseOn(pv.cr, pv.idToVar, 1 + (|k1| + |k2|), 1 + (|k1| + |k2| + |k3|))
    ensures InverseOn(pv.kh, pv.idToVar, 1 + (|k1| + |k2| + |k3|), 1 + (|k1| + |k2| + |k3| + |k4|))
    ensures InverseOn(pv.chr, pv.idToVar, 1 + (|k1| + |k2| + |k3| + |k4|), 1 + (|k1| + |k2| + |k3| + |k4| + |k5|))
  {
    var all := k1 + k2 + k3 + k4 + k5;
    var r := pv.idToVar;
    ConcatLengths(k1, k2, k3, k4);
    assert all == [] + k1 + (k2 + k3 + k4 + k5);
    SegmentInverse([], k1, k2 + k3 + k4 + k5, r, pv.ch);
    assert all == k1 + k2 + (k3 + k4 + k5);
    SegmentInverse(k1, k2, k3 + k4 + k5, r, pv.cd);
    assert all == (k1 + k2) + k3 + (k4 + k5);
    SegmentInverse(k1 + k2, k3, k4 + k5, r, pv.cr);
    assert all == (k1 + k2 + k3) + k4 + k5;
    SegmentInverse(k1 + k2 + k3, k4, k5, r, pv.kh);
    assert all == (k1 + k2 + k3 + k4) + k5 + [];
    SegmentInverse(k1 + k2 + k3 + k4, k5, [], r, pv.chr);
  }

  lemma ConcatLengths(k1: seq<Var>, k2: seq<Var>, k3: seq<Var>, k4: seq<Var>)
    ensures |k1 + k2| == |k1| + |k2| && |k1 + k2 + k3| == |k1| + |k2| + |k3|
    ensures |k1 + k2 + k3 + k4| == |k1| + |k2| + |k3| + |k4|
  {
  }

  /** Distinct keys allocated densely are stored under base, base + 1, ... in order. */
  lemma DenseIsDenseAt(m: VarMap, keys: seq<Var>, base: int)
    requires Distinct(keys) && m == Dense(keys, base)
    ensures DenseAt(m, keys, base)
  {
    DenseSpec(keys, base);
  }

  /** A dense recording into an empty `id_to_var` maps 1 .. |keys| to the keys in order. */
  lemma RecordIsRecordedAt(r: map<int, Var>, keys: seq<Var>)
    requires r == Record(map[], keys, 1)
    ensures RecordedAt(r, keys)
  {
    RecordSpec(map[], keys, 1);
  }

  lemma LaidOutCh(pv: ProblemVars, k1: seq<Var>, k2: seq<Var>, k3: seq<Var>, k4: seq<Var>, k5: seq<Var>)
    requires Distinct(k1) && LaidOut(pv, k1, k2, k3, k4, k5)
    ensures DenseAt(pv.ch, k1, 1)
  {
    DenseIsDenseAt(pv.ch, k1, 1);
  }

  lemma LaidOutCd(pv: ProblemVars, k1: seq<Var>, k2: seq<Var>, k3: seq<Var>, k4: seq<Var>, k5: seq<Var>)
    requires Distinct(k2) && LaidOut(pv, k1, k2, k3, k4, k5)
    ensures DenseAt(pv.cd, k2, 1 + |k1|)
  {
    DenseIsDenseAt(pv.cd, k2, 1 + |k1|);
  }

  lemma LaidOutCr(pv: ProblemVars, k1: seq<Var>, k2: seq<Var>, k3: seq<Var>, k4: seq<Var>, k5: seq<Var>)
    requires Distinct(k3) && LaidOut(pv, k1, k2, k3, k4, k5)
    ensures DenseAt(pv.cr, k3, 1 + |k1| + |k2|)
  {
    DenseIsDenseAt(pv.cr, k3, 1 + |k1| + |k2|);
  }

  lemma LaidOutKh(pv: ProblemVars, k1: seq<Var>, k2: seq<Var>, k3: seq<Var>, k4: seq<Var>, k5: seq<Var>)
    requires Distinct(k4) && LaidOut(pv, k1, k2, k3, k4, k5)
    ensures DenseAt(pv.kh, k4, 1 + |k1| + |k2| + |k3|)
  {
    DenseIsDenseAt(pv.kh, k4, 1 + |k1| + |k2| + |k3|);
  }

  lemma LaidOutChr(pv: ProblemVars, k1: seq<Var>, k2: seq<Var>, k3: seq<Var>, k4: seq<Var>, k5: seq<Var>)
    requires Distinct(k5) && LaidOut(pv, k1, k2, k3, k4, k5)
    ensures DenseAt(pv.chr, k5, 1 + |k1| + |k2| + |k3| + |k4|)
  {
    DenseIsDenseAt(pv.chr, k5, 1 + |k1| + |k2| + |k3| + |k4|);
  }

  lemma LaidOutRecorded(pv: ProblemVars, k1: seq<Var>, k2: seq<Var>, k3: seq<Var>, k4: seq<Var>, k5: seq<Var>)
    requires LaidOut(pv, k1, k2, k3, k4, k5)
    ensures RecordedAt(pv.idToVar, k1 + k2 + k3 + k4 + k5)
  {
    RecordIsRecordedAt(pv.idToVar, k1 + k2 + k3 + k4 + k5);
  }

  /** Five runs of distinct keys laid out one after the other: `id_to_var` is defined on exactly
      1 .. top, and is the exact inverse of the union of the family dictionaries. */
  lemma LaidOutInverse(pv: ProblemVars, k1: seq<Var>, k2: seq<Var>, k3: seq<Var>, k4: seq<Var>, k5: seq<Var>)
    requires Distinct(k1) && Distinct(k2) && Distinct(k3) && Distinct(k4) && Distinct(k5)
    requires LaidOut(pv, k1, k2, k3, k4, k5)
    ensures forall id :: id in pv.idToVar <==> 1 <= id <= pv.top
    ensures forall v, id :: Names(pv, v, id) <==> id in pv.idToVar && pv.idToVar[id] == v
  {
    LaidOutCh(pv, k1, k2, k3, k4, k5);
    LaidOutCd(pv, k1, k2, k3, k4, k5);
    LaidOutCr(pv, k1, k2, k3, k4, k5);
    LaidOutKh(pv, k1, k2, k3, k4, k5);
    LaidOutChr(pv, k1, k2, k3, k4, k5);
    LaidOutRecorded(pv, k1, k2, k3, k4, k5);
    RunsInverse(k1, k2, k3, k4, k5, pv);
  }

  /** The section encoders' allocation: `id_to_var` is defined on exactly 1 .. top and is the exact
      inverse of the union of the dictionaries ch, cd, cr, kh (and chr). */
  lemma ProblemLayoutInverse(pv: ProblemVars, cs: seq<CourseId>, ks: seq<CurriculumId>, rs: seq<RoomId>,
                             hours: nat, days: nat, withChr: bool)
    requires Distinct(cs) && Distinct(ks) && Distinct(rs)
    requires IsLayout(pv, cs, ks, rs, hours, days, withChr)
    ensures forall id :: id in pv.idToVar <==> 1 <= id <= pv.top
    ensures forall v, id :: Names(pv, v, id) <==> id in pv.idToVar && pv.idToVar[id] == v
  {
    SlotGridDistinct(CH, cs, hours);
    SlotGridDistinct(CD, cs, days);
    CrGridSpec(cs, rs);
    SlotGridDistinct(KH, ks, hours);
    if withChr {
      ChrGridSpec(cs, hours, rs);
    }
    LaidOutInverse(pv, SlotGrid(CH, cs, hours), SlotGrid(CD, cs, days), CrGrid(cs, rs), SlotGrid(KH, ks, hours),
                   ChrKeys(cs, hours, rs, withChr));
  }

  /** The pool stops at the number of variables: |C|*H + |C|*D + |C|*|R| + |K|*H (+ |C|*H*|R|). */
  lemma ProblemLayoutCount(pv: ProblemVars, cs: seq<CourseId>, ks: seq<CurriculumId>, rs: seq<RoomId>,
                           hours: nat, days: nat, withChr: bool)
    requires Distinct(cs) && Distinct(rs)
    requires IsLayout(pv, cs, ks, rs, hours, days, withChr)
    ensures pv.top == |cs| * hours + |cs| * days + |cs| * |rs| + |ks| * hours
                      + (if withChr then |cs| * (hours * |rs|) else 0)
  {
    SlotGridLength(CH, cs, hours);
    SlotGridLength(CD, cs, days);
    CrGridSpec(cs, rs);
    SlotGridLength(KH, ks, hours);
    if withChr {
      ChrGridSpec(cs, hours, rs);
    }
  }
}
