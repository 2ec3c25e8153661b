/**
 * The propositional variables of the encoding and the dictionaries that name
 * them.  A variable is identified by its family and key, exactly as the
 * `id_to_var` entries ('ch', c, h), ('cd', c, d), ... of the source.
 */
module Variables {
  import opened Seqs
  import opened Timetabling

  datatype Var =
    | Ch(c: CourseId, h: int)            // course c is taught in slot h
    | Cd(c: CourseId, d: int)            // course c is taught on day d
    | Cr(c: CourseId, r: RoomId)         // course c uses room r
    | Kh(k: CurriculumId, h: int)        // curriculum k has a lecture in slot h
    | Chr(c: CourseId, h: int, r: RoomId) // course c is taught in slot h in room r

  /** A Python dictionary from variables to ids: its keys in insertion order and the mapping. */
  datatype VarMap = VarMap(keys: seq<Var>, ids: map<Var, int>) {
    ghost predicate Valid() {
      Distinct(keys) && forall v :: v in ids <==> v in keys
    }

    /** `d[v] = id`: a new key goes to the end, an existing key keeps its place. */
    function Put(v: Var, id: int): VarMap {
      if v in ids then VarMap(keys, ids[v := id]) else VarMap(keys + [v], ids[v := id])
    }
  }

  /** The dictionaries of one family: `ch` holds only ('ch', c, h) keys, and so on. */
  ghost predicate ChMap(m: VarMap) { m.Valid() && forall v :: v in m.ids ==> v.Ch? }
  ghost predicate CdMap(m: VarMap) { m.Valid() && forall v :: v in m.ids ==> v.Cd? }
  ghost predicate KhMap(m: VarMap) { m.Valid() && forall v :: v in m.ids ==> v.Kh? }

  /** No two keys share an id. */
  ghost predicate Injective(m: VarMap) {
    forall u, v :: u in m.ids && v in m.ids && u != v ==> m.ids[u] != m.ids[v]
  }

  /** The dictionary that gives `keys[p]` the id `base + p`, built key by key. */
  function Dense(keys: seq<Var>, base: int): VarMap {
    if keys == [] then VarMap([], map[])
    else Dense(keys[..|keys| - 1], base).Put(keys[|keys| - 1], base + |keys| - 1)
  }

  /** `id_to_var` after `id_to_var[base + p] = keys[p]` for p = 0, 1, ... */
  function Record(m: map<int, Var>, keys: seq<Var>, base: int): map<int, Var> {
    if keys == [] then m
    else Record(m, keys[..|keys| - 1], base)[base + |keys| - 1 := keys[|keys| - 1]]
  }

  /** `m` holds exactly `keys`, in that order, `keys[p]` under the id `base + p`. */
  ghost predicate DenseAt(m: VarMap, keys: seq<Var>, base: int) {
    && m.keys == keys
    && (forall v :: v in m.ids <==> v in keys)
    && (forall p :: 0 <= p < |keys| ==> m.ids[keys[p]] == base + p)
  }

  /** `r` maps the ids 1 .. |keys| to `keys` in order, and has no other entry. */
  ghost predicate RecordedAt(r: map<int, Var>, keys: seq<Var>) {
    && (forall id :: id in r <==> 1 <= id <= |keys|)
    && (forall id :: 1 <= id <= |keys| ==> r[id] == keys[id - 1])
  }

  /** Allocating distinct keys densely keeps their order and gives each the id `base` + its position. */
  lemma {:induction false} DenseSpec(keys: seq<Var>, base: int)
    requires Distinct(keys)
    ensures Dense(keys, base).keys == keys
    ensures forall v :: v in Dense(keys, base).ids <==> v in keys
    ensures forall p :: 0 <= p < |keys| ==> Dense(keys, base).ids[keys[p]] == base + p
  {
    if keys != [] {
      var prev, last := keys[..|keys| - 1], keys[|keys| - 1];
      DistinctInit(keys);
      DenseSpec(prev, base);
      var d := Dense(prev, base);
      assert Dense(keys, base) == VarMap(prev + [last], d.ids[last := base + |keys| - 1]);
      assert prev + [last] == keys;
      forall p | 0 <= p < |keys| - 1
        ensures Dense(keys, base).ids[keys[p]] == base + p
      {
        assert keys[p] == prev[p];
      }
    }
  }

  /** A densely allocated dictionary is well formed, injective and uses exactly the ids base .. base+|keys|-1. */
  lemma DenseValid(keys: seq<Var>, base: int)
    requires Distinct(keys)
    ensures Dense(keys, base).Valid() && Injective(Dense(keys, base))
    ensures forall v :: v in Dense(keys, base).ids ==> base <= Dense(keys, base).ids[v] < base + |keys|
  {
    DenseSpec(keys, base);
    var m := Dense(keys, base);
    forall v | v in m.ids
      ensures base <= m.ids[v] < base + |keys|
    {
      var i :| 0 <= i < |keys| && keys[i] == v;
    }
    forall u, v | u in m.ids && v in m.ids && u != v
      ensures m.ids[u] != m.ids[v]
    {
      var i :| 0 <= i < |keys| && keys[i] == u;
      var j :| 0 <= j < |keys| && keys[j] == v;
    }
  }

  /** Allocating one more key puts it at the end with the next id. */
  lemma DenseSnoc(keys: seq<Var>, k: Var, base: int)
    ensures Dense(keys + [k], base) == Dense(keys, base).Put(k, base + |keys|)
  {
    assert (keys + [k])[..|keys|] == keys;
  }

  /** Recording one more key records it under the next id. */
  lemma RecordSnoc(m: map<int, Var>, keys: seq<Var>, k: Var, base: int)
    ensures Record(m, keys + [k], base) == Record(m, keys, base)[base + |keys| := k]
  {
    assert (keys + [k])[..|keys|] == keys;
  }

  /** Recording keys densely maps `base + p` back to `keys[p]` and leaves every other id as it was. */
  lemma {:induction false} RecordSpec(m: map<int, Var>, keys: seq<Var>, base: int)
    ensures forall id :: base <= id < base + |keys| ==> id in Record(m, keys, base) && Record(m, keys, base)[id] == keys[id - base]
    ensures forall id :: (id < base || id >= base + |keys|) ==>
      (id in Record(m, keys, base) <==> id in m) && (id in m ==> Record(m, keys, base)[id] == m[id])
  {
    if keys != [] {
      var prev := keys[..|keys| - 1];
      RecordSpec(m, prev, base);
    }
  }

  /** Recording two runs one after the other is recording their concatenation. */
  lemma {:induction false} RecordAppend(m: map<int, Var>, a: seq<Var>, b: seq<Var>, base: int)
    ensures Record(Record(m, a, base), b, base + |a|) == Record(m, a + b, base)
  {
    if b != [] {
      var b' := b[..|b| - 1];
      RecordAppend(m, a, b', base);
      assert (a + b)[..|a + b| - 1] == a + b';
    } else {
      assert a + b == a;
    }
  }

  // ---------------------------------------------------------------------
  // Key orders of the allocation loops

  /** The three families keyed by an id and a slot or day number. */
  datatype SlotFamily = CH | CD | KH

  function Slot(f: SlotFamily, x: string, i: int): Var {
    match f
    case CH => Ch(x, i)
    case CD => Cd(x, i)
    case KH => Kh(x, i)
  }

  /** `v` is a key of family `f`, owned by `x` (a course or a curriculum), with slot or day `i`. */
  predicate IsSlot(f: SlotFamily, v: Var, x: string, i: int) {
    v == Slot(f, x, i)
  }

  /** `for i in range(n): key(x, i)` */
  function SlotRow(f: SlotFamily, x: string, n: nat): seq<Var> {
    if n == 0 then [] else SlotRow(f, x, n - 1) + [Slot(f, x, n - 1)]
  }

  /** `for x in xs: for i in range(n): key(x, i)`: the order of get_ch, get_cd and get_kh. */
  function SlotGrid(f: SlotFamily, xs: seq<string>, n: nat): seq<Var> {
    if xs == [] then [] else SlotGrid(f, xs[..|xs| - 1], n) + SlotRow(f, xs[|xs| - 1], n)
  }

  lemma SlotGridSnoc(f: SlotFamily, xs: seq<string>, i: nat, n: nat)
    requires i < |xs|
    ensures SlotGrid(f, xs[..i + 1], n) == SlotGrid(f, xs[..i], n) + SlotRow(f, xs[i], n)
  {
    assert xs[..i + 1][..i] == xs[..i];
  }

  /** `for c in cs: for r in rs: ('cr', c, r)`: the order of get_cr. */
  function CrRow(c: CourseId, rs: seq<RoomId>): seq<Var> {
    if rs == [] then [] else CrRow(c, rs[..|rs| - 1]) + [Cr(c, rs[|rs| - 1])]
  }

  lemma CrRowSnoc(c: CourseId, rs: seq<RoomId>, j: nat)
    requires j < |rs|
    ensures CrRow(c, rs[..j + 1]) == CrRow(c, rs[..j]) + [Cr(c, rs[j])]
  {
    assert rs[..j + 1][..j] == rs[..j];
  }

  function CrGrid(cs: seq<CourseId>, rs: seq<RoomId>): seq<Var> {
    if cs == [] then [] else CrGrid(cs[..|cs| - 1], rs) + CrRow(cs[|cs| - 1], rs)
  }

  /** `for c in cs: for h in range(n): for r in rs: ('chr', c, h, r)`: the order of get_chr. */
  function ChrRow(c: CourseId, h: int, rs: seq<RoomId>): seq<Var> {
    if rs == [] then [] else ChrRow(c, h, rs[..|rs| - 1]) + [Chr(c, h, rs[|rs| - 1])]
  }

  function ChrBlock(c: CourseId, n: nat, rs: seq<RoomId>): seq<Var> {
    if n == 0 then [] else ChrBlock(c, n - 1, rs) + ChrRow(c, n - 1, rs)
  }

  function ChrGrid(cs: seq<CourseId>, n: nat, rs: seq<RoomId>): seq<Var> {
    if cs == [] then [] else ChrGrid(cs[..|cs| - 1], n, rs) + ChrBlock(cs[|cs| - 1], n, rs)
  }

  lemma SlotInjective(f: SlotFamily, x: string, i: int, y: string, j: int)
    ensures Slot(f, x, i) == Slot(f, y, j) <==> x == y && i == j
  {
  }

  lemma {:induction false} SlotRowSpec(f: SlotFamily, x: string, n: nat)
    ensures |SlotRow(f, x, n)| == n
    ensures forall i :: 0 <= i < n ==> SlotRow(f, x, n)[i] == Slot(f, x, i)
    ensures Distinct(SlotRow(f, x, n))
    ensures forall y, i :: Slot(f, y, i) in SlotRow(f, x, n) <==> y == x && 0 <= i < n
  {
    SlotRowAt(f, x, n);
    var row := SlotRow(f, x, n);
    forall p, q | 0 <= p < q < |row|
      ensures row[p] != row[q]
    {
      SlotInjective(f, x, p, x, q);
    }
    forall y, i
      ensures Slot(f, y, i) in row <==> y == x && 0 <= i < n
    {
      if Slot(f, y, i) in row {
        var p :| 0 <= p < |row| && row[p] == Slot(f, y, i);
        SlotInjective(f, x, p, y, i);
      }
      if y == x && 0 <= i < n {
        assert row[i] == Slot(f, y, i);
      }
    }
  }

  /** The slot row of x holds slot i of x at position i. */
  lemma {:induction false} SlotRowAt(f: SlotFamily, x: string, n: nat)
    ensures |SlotRow(f, x, n)| == n
    ensures forall i :: 0 <= i < n ==> SlotRow(f, x, n)[i] == Slot(f, x, i)
  {
    if n > 0 {
      SlotRowAt(f, x, n - 1);
      assert SlotRow(f, x, n) == SlotRow(f, x, n - 1) + [Slot(f, x, n - 1)];
    }
  }

  /** Every key of a slot grid is of the grid's family. */
  lemma {:induction false} SlotGridFamily(f: SlotFamily, xs: seq<string>, n: nat)
    ensures forall v :: v in SlotGrid(f, xs, n) ==> exists x, i :: IsSlot(f, v, x, i) && x in xs && 0 <= i < n
  {
    if xs != [] {
      var prev, x := xs[..|xs| - 1], xs[|xs| - 1];
      SlotGridFamily(f, prev, n);
      SlotRowSpec(f, x, n);
      forall v | v in SlotRow(f, x, n)
        ensures exists y, i :: IsSlot(f, v, y, i) && y in xs && 0 <= i < n
      {
        var i :| 0 <= i < n && SlotRow(f, x, n)[i] == v;
        assert IsSlot(f, v, x, i);
      }
      forall v | v in SlotGrid(f, prev, n)
        ensures exists y, i :: IsSlot(f, v, y, i) && y in xs && 0 <= i < n
      {
        var y, i :| IsSlot(f, v, y, i) && y in prev && 0 <= i < n;
        assert y in xs;
      }
    }
  }

  lemma MulPred(n: int, w: int)
    ensures n * w == (n - 1) * w + w
  {
  }

  lemma MulSucc(a: int, w: int)
    ensures (a + 1) * w == a * w + w
  {
  }

  /** A slot grid has one key per owner and slot: |xs| * n in all. */
  lemma {:induction false} SlotGridLength(f: SlotFamily, xs: seq<string>, n: nat)
    ensures |SlotGrid(f, xs, n)| == |xs| * n
  {
    if xs != [] {
      var prev := xs[..|xs| - 1];
      SlotGridLength(f, prev, n);
      SlotRowSpec(f, xs[|xs| - 1], n);
      MulSucc(|prev|, n);
    }
  }

  /** The slot grid holds exactly the keys (x, i) with x in xs and 0 <= i < n. */
  lemma {:induction false} SlotGridMembers(f: SlotFamily, xs: seq<string>, n: nat)
    ensures forall x, i :: Slot(f, x, i) in SlotGrid(f, xs, n) <==> x in xs && 0 <= i < n
  {
    if xs != [] {
      var prev, x := xs[..|xs| - 1], xs[|xs| - 1];
      SlotGridMembers(f, prev, n);
      SlotRowSpec(f, x, n);
      assert xs == prev + [x];
      forall y, i
        ensures Slot(f, y, i) in SlotGrid(f, xs, n) <==> y in xs && 0 <= i < n
      {
        assert Slot(f, y, i) in SlotGrid(f, xs, n) <==>
          Slot(f, y, i) in SlotGrid(f, prev, n) || Slot(f, y, i) in SlotRow(f, x, n);
      }
    }
  }

  /** Distinct owners give a slot grid without repeated keys. */
  lemma {:induction false} SlotGridDistinct(f: SlotFamily, xs: seq<string>, n: nat)
    requires Distinct(xs)
    ensures Distinct(SlotGrid(f, xs, n))
  {
    if xs != [] {
      var prev, x := xs[..|xs| - 1], xs[|xs| - 1];
      DistinctInit(xs);
      SlotGridDistinct(f, prev, n);
      SlotRowSpec(f, x, n);
      SlotGridFamily(f, prev, n);
      var g, row := SlotGrid(f, prev, n), SlotRow(f, x, n);
      forall v | v in g
        ensures v !in row
      {
        var y, i :| IsSlot(f, v, y, i) && y in prev && 0 <= i < n;
      }
      DistinctAppend(g, row);
    }
  }

  lemma {:induction false} CrRowSpec(c: CourseId, rs: seq<RoomId>)
    requires Distinct(rs)
    ensures |CrRow(c, rs)| == |rs|
    ensures forall j :: 0 <= j < |rs| ==> CrRow(c, rs)[j] == Cr(c, rs[j])
    ensures Distinct(CrRow(c, rs))
    ensures forall v :: v in CrRow(c, rs) <==> v.Cr? && v.c == c && v.r in rs
  {
    if rs != [] {
      var prev := rs[..|rs| - 1];
      DistinctInit(rs);
      CrRowSpec(c, prev);
      assert rs == prev + [rs[|rs| - 1]];
      DistinctAppend(CrRow(c, prev), [Cr(c, rs[|rs| - 1])]);
    }
  }

  lemma {:induction false} CrGridLength(cs: seq<CourseId>, rs: seq<RoomId>)
    requires Distinct(rs)
    ensures |CrGrid(cs, rs)| == |cs| * |rs|
  {
    if cs != [] {
      var prev := cs[..|cs| - 1];
      CrGridLength(prev, rs);
      CrRowSpec(cs[|cs| - 1], rs);
      MulSucc(|prev|, |rs|);
    }
  }

  lemma {:induction false} CrGridMembers(cs: seq<CourseId>, rs: seq<RoomId>)
    requires Distinct(rs)
    ensures forall v :: v in CrGrid(cs, rs) <==> v.Cr? && v.c in cs && v.r in rs
  {
    if cs != [] {
      var prev, c := cs[..|cs| - 1], cs[|cs| - 1];
      CrGridMembers(prev, rs);
      CrRowSpec(c, rs);
      assert cs == prev + [c];
      forall v
        ensures v in CrGrid(cs, rs) <==> v.Cr? && v.c in cs && v.r in rs
      {
        assert v in CrGrid(cs, rs) <==> v in CrGrid(prev, rs) || v in CrRow(c, rs);
      }
    }
  }

  lemma {:induction false} CrGridDistinct(cs: seq<CourseId>, rs: seq<RoomId>)
    requires Distinct(cs) && Distinct(rs)
    ensures Distinct(CrGrid(cs, rs))
  {
    if cs != [] {
      var prev, c := cs[..|cs| - 1], cs[|cs| - 1];
      DistinctInit(cs);
      CrGridDistinct(prev, rs);
      CrGridMembers(prev, rs);
      CrRowSpec(c, rs);
      DistinctAppend(CrGrid(prev, rs), CrRow(c, rs));
    }
  }

  /** The room grid holds exactly the keys (c, r) with c in cs and r in rs, each once. */
  lemma CrGridSpec(cs: seq<CourseId>, rs: seq<RoomId>)
    requires Distinct(cs) && Distinct(rs)
    ensures |CrGrid(cs, rs)| == |cs| * |rs|
    ensures Distinct(CrGrid(cs, rs))
    ensures forall v :: v in CrGrid(cs, rs) <==> v.Cr? && v.c in cs && v.r in rs
  {
    CrGridLength(cs, rs);
    CrGridDistinct(cs, rs);
    CrGridMembers(cs, rs);
  }

  lemma {:induction false} ChrRowSpec(c: CourseId, h: int, rs: seq<RoomId>)
    requires Distinct(rs)
    ensures |ChrRow(c, h, rs)| == |rs|
    ensures forall j :: 0 <= j < |rs| ==> ChrRow(c, h, rs)[j] == Chr(c, h, rs[j])
    ensures Distinct(ChrRow(c, h, rs))
    ensures forall v :: v in ChrRow(c, h, rs) <==> v.Chr? && v.c == c && v.h == h && v.r in rs
  {
    if rs != [] {
      var prev := rs[..|rs| - 1];
      DistinctInit(rs);
      ChrRowSpec(c, h, prev);
      assert rs == prev + [rs[|rs| - 1]];
      DistinctAppend(ChrRow(c, h, prev), [Chr(c, h, rs[|rs| - 1])]);
    }
  }

  lemma ChrRowDistinct(c: CourseId, h: int, rs: seq<RoomId>)
    requires Distinct(rs)
    ensures Distinct(ChrRow(c, h, rs))
  {
    ChrRowSpec(c, h, rs);
  }

  lemma {:induction false} ChrBlockSpec(c: CourseId, n: nat, rs: seq<RoomId>)
    requires Distinct(rs)
    ensures |ChrBlock(c, n, rs)| == n * |rs|
    ensures Distinct(ChrBlock(c, n, rs))
    ensures forall v :: v in ChrBlock(c, n, rs) <==> v.Chr? && v.c == c && 0 <= v.h < n && v.r in rs
  {
    ChrBlockLength(c, n, rs);
    ChrBlockMembers(c, n, rs);
    ChrBlockDistinct(c, n, rs);
  }

  lemma ChrBlockMembers(c: CourseId, n: nat, rs: seq<RoomId>)
    ensures forall v :: v in ChrBlock(c, n, rs) <==> v.Chr? && v.c == c && 0 <= v.h < n && v.r in rs
  {
    forall v ensures v in ChrBlock(c, n, rs) <==> v.Chr? && v.c == c && 0 <= v.h < n && v.r in rs {
      ChrBlockHas(c, n, rs, v);
    }
  }

  /** One variable at a time, so that the induction carries no quantifier. */
  lemma {:induction false} ChrBlockHas(c: CourseId, n: nat, rs: seq<RoomId>, v: Var)
    ensures v in ChrBlock(c, n, rs) <==> v.Chr? && v.c == c && 0 <= v.h < n && v.r in rs
  {
    if n > 0 {
      ChrBlockHas(c, n - 1, rs, v);
      ChrRowHas(c, n - 1, rs, v);
      BlockHasStep(v, v in ChrBlock(c, n, rs), v in ChrBlock(c, n - 1, rs), v in ChrRow(c, n - 1, rs), c, n, rs);
    }
  }

  lemma ChrBlockUnfold(c: CourseId, n: nat, rs: seq<RoomId>)
    requires n > 0
    ensures ChrBlock(c, n, rs) == ChrBlock(c, n - 1, rs) + ChrRow(c, n - 1, rs)
  {
  }

  /** The step of `ChrBlockHas`, over plain sequences. */
  lemma BlockHasStep(v: Var, inWhole: bool, inPrev: bool, inRow: bool, c: CourseId, n: nat, rs: seq<RoomId>)
    requires n > 0 && (inWhole <==> inPrev || inRow)
    requires inPrev <==> v.Chr? && v.c == c && 0 <= v.h < n - 1 && v.r in rs
    requires inRow <==> v.Chr? && v.c == c && v.h == n - 1 && v.r in rs
    ensures inWhole <==> v.Chr? && v.c == c && 0 <= v.h < n && v.r in rs
  {
  }

  lemma {:induction false} ChrRowHas(c: CourseId, h: int, rs: seq<RoomId>, v: Var)
    ensures v in ChrRow(c, h, rs) <==> v.Chr? && v.c == c && v.h == h && v.r in rs
  {
    if rs != [] {
      var prev := rs[..|rs| - 1];
      assert rs == prev + [rs[|rs| - 1]];
      assert v.Chr? ==> (v.r in rs <==> v.r in prev || v.r == rs[|rs| - 1]);
      ChrRowHas(c, h, prev, v);
    }
  }

  lemma {:induction false} ChrBlockDistinct(c: CourseId, n: nat, rs: seq<RoomId>)
    requires Distinct(rs)
    ensures Distinct(ChrBlock(c, n, rs))
  {
    if n > 0 {
      ChrBlockDistinct(c, n - 1, rs);
      ChrRowDistinct(c, n - 1, rs);
      ChrBlockRowApart(c, n - 1, rs);
      ChrBlockUnfold(c, n, rs);
      DistinctJoin(ChrBlock(c, n, rs), ChrBlock(c, n - 1, rs), ChrRow(c, n - 1, rs));
    }
  }

  /** Row h shares no variable with the block of the slots before it. */
  lemma ChrBlockRowApart(c: CourseId, h: nat, rs: seq<RoomId>)
    ensures forall x :: x in ChrBlock(c, h, rs) ==> x !in ChrRow(c, h, rs)
  {
    forall x | x in ChrBlock(c, h, rs) ensures x !in ChrRow(c, h, rs) {
      ChrBlockHas(c, h, rs, x);
      ChrRowHas(c, h, rs, x);
    }
  }

  lemma {:induction false} ChrBlockLength(c: CourseId, n: nat, rs: seq<RoomId>)
    requires Distinct(rs)
    ensures |ChrBlock(c, n, rs)| == n * |rs|
  {
    if n > 0 {
      assert |ChrRow(c, n - 1, rs)| == |rs| by {
        ChrRowSpec(c, n - 1, rs);
      }
      ChrBlockLength(c, n - 1, rs);
      MulPred(n, |rs|);
    }
  }

  /** The joint grid holds exactly the keys (c, h, r) with c in cs, 0 <= h < n and r in rs, each once. */
  lemma {:induction false} ChrGridSpec(cs: seq<CourseId>, n: nat, rs: seq<RoomId>)
    requires Distinct(cs) && Distinct(rs)
    ensures |ChrGrid(cs, n, rs)| == |cs| * (n * |rs|)
    ensures Distinct(ChrGrid(cs, n, rs))
    ensures forall v :: v in ChrGrid(cs, n, rs) <==> v.Chr? && v.c in cs && 0 <= v.h < n && v.r in rs
  {
    if cs != [] {
      var prev, c := cs[..|cs| - 1], cs[|cs| - 1];
      DistinctInit(cs);
      ChrGridSpec(prev, n, rs);
      ChrBlockSpec(c, n, rs);
      assert cs == prev + [c];
      var g, block := ChrGrid(prev, n, rs), ChrBlock(c, n, rs);
      MulSucc(|prev|, n * |rs|);
      DistinctAppend(g, block);
    }
  }

  // ---------------------------------------------------------------------
  // pysat's IDPool, as the encoder uses it: a counter of the highest id handed out

  class IdPool {
    var top: int

    /** `IDPool(start_from)`: the first id handed out is `startFrom`. */
    constructor (startFrom: int)
      ensures top == startFrom - 1
    {
      top := startFrom - 1;
    }

    /** `vpool.id()` without an object: a fresh id, one above the previous. */
    method Id() returns (id: int)
      modifies this
      ensures id == old(top) + 1 && top == id
    {
      top := top + 1;
      id := top;
    }
  }
}
