/**
 * The channelling clauses of the complete encoder (complete_encode.py,
 * `relation_ch_cd`, `relation_ch_kh`, `relation_ch_chr`, `relation_cr_chr`):
 * each derived variable is tied to the `ch` (or `chr`) variables it summarises.
 */
module Relations {
  import opened Seqs
  import opened Calendar
  import opened Timetabling
  import opened Variables
  import opened Literals

  /** The keys (c, h) for the slots `hs`, in order. */
  function ChAt(c: CourseId, hs: seq<int>): (vs: seq<Var>)
    ensures |vs| == |hs| && forall i :: 0 <= i < |hs| ==> vs[i] == Ch(c, hs[i])
  {
    seq(|hs|, i requires 0 <= i < |hs| => Ch(c, hs[i]))
  }

  // ---------------------------------------------------------------------
  // relation_ch_cd: cd(c, d) is true exactly when c is taught in some slot of day d

  /** The day key of a slot key. */
  function DayKey(v: Var, ppd: int): Var
    requires v.Ch? && ppd >= 1
  {
    Cd(v.c, Day(v.h, ppd))
  }

  /** First loop: `[-ch(c, h), cd(c, day(h))]` for every (c, h) of `keys` whose day key exists. */
  function DayLinks(ch: VarMap, cd: VarMap, ppd: int, keys: seq<Var>): seq<Clause>
    requires ppd >= 1
    requires forall v :: v in keys ==> v.Ch? && v in ch.ids
  {
    if keys == [] then []
    else
      var v := keys[|keys| - 1];
      DayLinks(ch, cd, ppd, keys[..|keys| - 1])
        + (if DayKey(v, ppd) in cd.ids then [[-ch.ids[v], cd.ids[DayKey(v, ppd)]]] else [])
  }

  /** The clause of one day key: `-cd(c, d)` or one of the slot variables of c on day d. */
  function DayCover(ch: VarMap, cd: VarMap, ppd: int, v: Var): Clause
    requires v.Cd? && v in cd.ids
  {
    [-cd.ids[v]] + Present(ch, ChAt(v.c, HoursForDay(v.d, ppd)))
  }

  /** Second loop: one cover clause per day key of `keys`. */
  function DayCovers(ch: VarMap, cd: VarMap, ppd: int, keys: seq<Var>): seq<Clause>
    requires forall v :: v in keys ==> v.Cd? && v in cd.ids
  {
    if keys == [] then []
    else DayCovers(ch, cd, ppd, keys[..|keys| - 1]) + [DayCover(ch, cd, ppd, keys[|keys| - 1])]
  }

  /** The clause list of `relation_ch_cd`. */
  function ChCdClauses(ch: VarMap, cd: VarMap, ppd: int): seq<Clause>
    requires ppd >= 1 && ChMap(ch) && CdMap(cd)
  {
    DayLinks(ch, cd, ppd, ch.keys) + DayCovers(ch, cd, ppd, cd.keys)
  }

  /** complete_encode.py `relation_ch_cd`: the slot-to-day links, then the day covers. */
  method RelationChCd(ch: VarMap, cd: VarMap, ppd: int) returns (clauses: seq<Clause>)
    requires ppd >= 1 && ChMap(ch) && CdMap(cd)
    ensures clauses == ChCdClauses(ch, cd, ppd)
  {
    var links := LinkSlotsToDays(ch, cd, ppd);
    var covers := CoverDayKeys(ch, cd, ppd);
    clauses := links + covers;
  }

  /** The first loop of `relation_ch_cd`. */
  method LinkSlotsToDays(ch: VarMap, cd: VarMap, ppd: int) returns (clauses: seq<Clause>)
    requires ppd >= 1 && ChMap(ch)
    ensures clauses == DayLinks(ch, cd, ppd, ch.keys)
  {
    clauses := [];
    var i := 0;
    while i < |ch.keys|
      invariant 0 <= i <= |ch.keys|
      invariant clauses == DayLinks(ch, cd, ppd, ch.keys[..i])
    {
      var v := ch.keys[i];
      assert ch.keys[..i + 1][..i] == ch.keys[..i];
      var d := Day(v.h, ppd);
      if Cd(v.c, d) in cd.ids {
        clauses := clauses + [[-ch.ids[v], cd.ids[Cd(v.c, d)]]];
      }
      i := i + 1;
    }
    assert ch.keys[..i] == ch.keys;
  }

  /** The body of the second loop of `relation_ch_cd`: the cover clause of one day key. */
  method CoverDay(ch: VarMap, cd: VarMap, ppd: int, v: Var) returns (cl: Clause)
    requires v.Cd? && v in cd.ids
    ensures cl == DayCover(ch, cd, ppd, v)
  {
    var hoursDay := HoursForDay(v.d, ppd);
    var lits := CollectPresent(ch, ChAt(v.c, hoursDay));
    cl := [-cd.ids[v]] + lits;
  }

  /** The second loop of `relation_ch_cd`. */
  method CoverDayKeys(ch: VarMap, cd: VarMap, ppd: int) returns (clauses: seq<Clause>)
    requires CdMap(cd)
    ensures clauses == DayCovers(ch, cd, ppd, cd.keys)
  {
    clauses := [];
    var j := 0;
    while j < |cd.keys|
      invariant 0 <= j <= |cd.keys|
      invariant clauses == DayCovers(ch, cd, ppd, cd.keys[..j])
    {
      var v := cd.keys[j];
      assert cd.keys[..j + 1][..j] == cd.keys[..j];
      assert v in cd.ids;
      assert DayCovers(ch, cd, ppd, cd.keys[..j + 1]) == DayCovers(ch, cd, ppd, cd.keys[..j]) + [DayCover(ch, cd, ppd, v)];
      var cl := CoverDay(ch, cd, ppd, v);
      clauses := clauses + [cl];
      j := j + 1;
    }
    assert cd.keys[..j] == cd.keys;
  }

  lemma {:induction false} DayLinksMeaning(a: set<int>, ch: VarMap, cd: VarMap, ppd: int, keys: seq<Var>)
    requires ppd >= 1 && Positive(ch) && Positive(cd)
    requires forall v :: v in keys ==> v.Ch? && v in ch.ids
    ensures Sat(a, DayLinks(ch, cd, ppd, keys))
        <==> (forall v :: v in keys && DayKey(v, ppd) in cd.ids && ch.ids[v] in a ==> cd.ids[DayKey(v, ppd)] in a)
  {
    if keys != [] {
      var init, v := keys[..|keys| - 1], keys[|keys| - 1];
      assert forall u :: u in init ==> u in keys;
      assert keys == init + [v];
      DayLinksMeaning(a, ch, cd, ppd, init);
      if DayKey(v, ppd) in cd.ids {
        ImplicationMeaning(a, ch.ids[v], cd.ids[DayKey(v, ppd)]);
      }
      SatAppend(a, DayLinks(ch, cd, ppd, init),
                if DayKey(v, ppd) in cd.ids then [[-ch.ids[v], cd.ids[DayKey(v, ppd)]]] else []);
    }
  }

  /** A marked day has a taught slot of that day. */
  ghost predicate DayCovered(a: set<int>, ch: VarMap, cd: VarMap, ppd: int, v: Var)
    requires v.Cd? && v in cd.ids
  {
    cd.ids[v] in a ==> exists h :: h in HoursForDay(v.d, ppd) && Ch(v.c, h) in ch.ids && ch.ids[Ch(v.c, h)] in a
  }

  /** The cover clause of one day key holds exactly when that day is covered. */
  lemma DayCoverMeaning(a: set<int>, ch: VarMap, cd: VarMap, ppd: int, v: Var)
    requires Positive(ch) && Positive(cd)
    requires v.Cd? && v in cd.ids
    ensures Sat(a, [DayCover(ch, cd, ppd, v)]) <==> DayCovered(a, ch, cd, ppd, v)
  {
    var vs := ChAt(v.c, HoursForDay(v.d, ppd));
    PresentPositive(ch, vs);
    CoverMeaning(a, cd.ids[v], Present(ch, vs));
    PresentTrue(a, ch, vs);
    assert (exists u :: u in vs && u in ch.ids && ch.ids[u] in a)
       <==> (exists h :: h in HoursForDay(v.d, ppd) && Ch(v.c, h) in ch.ids && ch.ids[Ch(v.c, h)] in a) by {
      forall u | u in vs
        ensures exists h :: h in HoursForDay(v.d, ppd) && u == Ch(v.c, h)
      {
        var i :| 0 <= i < |vs| && vs[i] == u;
        assert HoursForDay(v.d, ppd)[i] in HoursForDay(v.d, ppd);
      }
      forall h | h in HoursForDay(v.d, ppd)
        ensures Ch(v.c, h) in vs
      {
        var i :| 0 <= i < |HoursForDay(v.d, ppd)| && HoursForDay(v.d, ppd)[i] == h;
        assert vs[i] == Ch(v.c, h);
      }
    }
  }

  lemma {:induction false} DayCoversMeaning(a: set<int>, ch: VarMap, cd: VarMap, ppd: int, keys: seq<Var>)
    requires Positive(ch) && Positive(cd)
    requires forall v :: v in keys ==> v.Cd? && v in cd.ids
    ensures Sat(a, DayCovers(ch, cd, ppd, keys))
        <==> (forall v :: v in keys && cd.ids[v] in a ==>
                exists h :: h in HoursForDay(v.d, ppd) && Ch(v.c, h) in ch.ids && ch.ids[Ch(v.c, h)] in a)
  {
    if keys != [] {
      var init, v := keys[..|keys| - 1], keys[|keys| - 1];
      assert forall u :: u in init ==> u in keys;
      assert keys == init + [v];
      DayCoversMeaning(a, ch, cd, ppd, init);
      DayCoverMeaning(a, ch, cd, ppd, v);
      SatAppend(a, DayCovers(ch, cd, ppd, init), [DayCover(ch, cd, ppd, v)]);
    }
  }

  /** An assignment satisfies `relation_ch_cd` exactly when every taught slot makes its day
      taught (where the day variable exists), and every taught day has a taught slot on that day. */
  lemma ChCdMeaning(a: set<int>, ch: VarMap, cd: VarMap, ppd: int)
    requires ppd >= 1 && ChMap(ch) && CdMap(cd) && Positive(ch) && Positive(cd)
    ensures Sat(a, ChCdClauses(ch, cd, ppd))
        <==> && (forall v :: v in ch.ids && DayKey(v, ppd) in cd.ids && ch.ids[v] in a ==> cd.ids[DayKey(v, ppd)] in a)
             && (forall v :: v in cd.ids && cd.ids[v] in a ==>
                   exists h :: h in HoursForDay(v.d, ppd) && Ch(v.c, h) in ch.ids && ch.ids[Ch(v.c, h)] in a)
  {
    DayLinksMeaning(a, ch, cd, ppd, ch.keys);
    DayCoversMeaning(a, ch, cd, ppd, cd.keys);
    SatAppend(a, DayLinks(ch, cd, ppd, ch.keys), DayCovers(ch, cd, ppd, cd.keys));
  }

  // ---------------------------------------------------------------------
  // relation_ch_kh: kh(k, h) is true exactly when some course of curriculum k is taught in slot h

  /** The keys (c, h) for the courses `cs` at slot h, in order. */
  function CoursesAt(cs: seq<CourseId>, h: int): (vs: seq<Var>)
    ensures |vs| == |cs| && forall i :: 0 <= i < |cs| ==> vs[i] == Ch(cs[i], h)
  {
    seq(|cs|, i requires 0 <= i < |cs| => Ch(cs[i], h))
  }

  /** Inner loop over the curricula for one slot key v = (c, h): `[-ch(c, h), kh(k, h)]` for every
      curriculum k of `kids` that lists c and has a key (k, h). */
  function CurriculumLinks(ch: VarMap, kh: VarMap, curricula: map<CurriculumId, Curriculum>, kids: seq<CurriculumId>, v: Var): seq<Clause>
    requires v.Ch? && v in ch.ids
    requires forall k :: k in kids ==> k in curricula
  {
    if kids == [] then []
    else
      var k := kids[|kids| - 1];
      CurriculumLinks(ch, kh, curricula, kids[..|kids| - 1], v)
        + (if v.c in curricula[k].courses && Kh(k, v.h) in kh.ids then [[-ch.ids[v], kh.ids[Kh(k, v.h)]]] else [])
  }

  /** First loop: the curriculum links of every slot key of `keys`. */
  function KhLinks(ch: VarMap, kh: VarMap, curricula: map<CurriculumId, Curriculum>, kids: seq<CurriculumId>, keys: seq<Var>): seq<Clause>
    requires forall v :: v in keys ==> v.Ch? && v in ch.ids
    requires forall k :: k in kids ==> k in curricula
  {
    if keys == [] then []
    else KhLinks(ch, kh, curricula, kids, keys[..|keys| - 1]) + CurriculumLinks(ch, kh, curricula, kids, keys[|keys| - 1])
  }

  /** The clause of one key (k, h): `-kh(k, h)` or one of the slot variables of k's courses at h. */
  function KhCover(ch: VarMap, kh: VarMap, curricula: map<CurriculumId, Curriculum>, v: Var): Clause
    requires v.Kh? && v in kh.ids && v.k in curricula
  {
    [-kh.ids[v]] + Present(ch, CoursesAt(curricula[v.k].courses, v.h))
  }

  /** Second loop: one cover clause per key of `keys`. */
  function KhCovers(ch: VarMap, kh: VarMap, curricula: map<CurriculumId, Curriculum>, keys: seq<Var>): seq<Clause>
    requires forall v :: v in keys ==> v.Kh? && v in kh.ids && v.k in curricula
  {
    if keys == [] then []
    else KhCovers(ch, kh, curricula, keys[..|keys| - 1]) + [KhCover(ch, kh, curricula, keys[|keys| - 1])]
  }

  /** The keys of `kh` name curricula of the instance (the source looks each one up). */
  ghost predicate KhOver(kh: VarMap, curricula: map<CurriculumId, Curriculum>) {
    KhMap(kh) && forall v :: v in kh.ids ==> v.k in curricula
  }

  /** The clause list of `relation_ch_kh`, the curricula visited in the order `kids`. */
  function ChKhClauses(ch: VarMap, kh: VarMap, kids: seq<CurriculumId>, curricula: map<CurriculumId, Curriculum>): seq<Clause>
    requires ChMap(ch) && KhOver(kh, curricula)
    requires forall k :: k in kids ==> k in curricula
  {
    KhLinks(ch, kh, curricula, kids, ch.keys) + KhCovers(ch, kh, curricula, kh.keys)
  }

  /** The inner loop of the first part of `relation_ch_kh`. */
  method LinkCurricula(ch: VarMap, kh: VarMap, kids: seq<CurriculumId>, curricula: map<CurriculumId, Curriculum>, v: Var)
    returns (block: seq<Clause>)
    requires v.Ch? && v in ch.ids
    requires forall k :: k in kids ==> k in curricula
    ensures block == CurriculumLinks(ch, kh, curricula, kids, v)
  {
    block := [];
    var j := 0;
    while j < |kids|
      invariant 0 <= j <= |kids|
      invariant block == CurriculumLinks(ch, kh, curricula, kids[..j], v)
    {
      var k := kids[j];
      assert kids[..j + 1][..j] == kids[..j];
      if v.c in curricula[k].courses {
        if Kh(k, v.h) in kh.ids {
          block := block + [[-ch.ids[v], kh.ids[Kh(k, v.h)]]];
        }
      }
      j := j + 1;
    }
    assert kids[..j] == kids;
  }

  /** complete_encode.py `relation_ch_kh`: the slot-to-curriculum links, then the curriculum covers. */
  method RelationChKh(ch: VarMap, kh: VarMap, kids: seq<CurriculumId>, curricula: map<CurriculumId, Curriculum>)
    returns (clauses: seq<Clause>)
    requires ChMap(ch) && KhOver(kh, curricula)
    requires forall k :: k in kids ==> k in curricula
    ensures clauses == ChKhClauses(ch, kh, kids, curricula)
  {
    var links := LinkSlotsToCurricula(ch, kh, kids, curricula);
    var covers := CoverCurricula(ch, kh, curricula);
    clauses := links + covers;
  }

  /** The first loop of `relation_ch_kh`. */
  method LinkSlotsToCurricula(ch: VarMap, kh: VarMap, kids: seq<CurriculumId>, curricula: map<CurriculumId, Curriculum>)
    returns (clauses: seq<Clause>)
    requires ChMap(ch)
    requires forall k :: k in kids ==> k in curricula
    ensures clauses == KhLinks(ch, kh, curricula, kids, ch.keys)
  {
    clauses := [];
    var i := 0;
    while i < |ch.keys|
      invariant 0 <= i <= |ch.keys|
      invariant clauses == KhLinks(ch, kh, curricula, kids, ch.keys[..i])
    {
      assert ch.keys[..i + 1][..i] == ch.keys[..i];
      var block := LinkCurricula(ch, kh, kids, curricula, ch.keys[i]);
      clauses := clauses + block;
      i := i + 1;
    }
    assert ch.keys[..i] == ch.keys;
  }

  /** The body of the second loop of `relation_ch_kh`: the cover clause of one curriculum-slot key. */
  method CoverCurriculumSlot(ch: VarMap, kh: VarMap, curricula: map<CurriculumId, Curriculum>, v: Var) returns (cl: Clause)
    requires v.Kh? && v in kh.ids && v.k in curricula
    ensures cl == KhCover(ch, kh, curricula, v)
  {
    var coursesK := curricula[v.k].courses;
    var lits := CollectPresent(ch, CoursesAt(coursesK, v.h));
    cl := [-kh.ids[v]] + lits;
  }

  /** The second loop of `relation_ch_kh`. */
  method CoverCurricula(ch: VarMap, kh: VarMap, curricula: map<CurriculumId, Curriculum>) returns (clauses: seq<Clause>)
    requires KhOver(kh, curricula)
    ensures clauses == KhCovers(ch, kh, curricula, kh.keys)
  {
    clauses := [];
    var j := 0;
    while j < |kh.keys|
      invariant 0 <= j <= |kh.keys|
      invariant clauses == KhCovers(ch, kh, curricula, kh.keys[..j])
    {
      var v := kh.keys[j];
      assert kh.keys[..j + 1][..j] == kh.keys[..j];
      assert v in kh.ids;
      assert KhCovers(ch, kh, curricula, kh.keys[..j + 1]) == KhCovers(ch, kh, curricula, kh.keys[..j]) + [KhCover(ch, kh, curricula, v)];
      var cl := CoverCurriculumSlot(ch, kh, curricula, v);
      clauses := clauses + [cl];
      j := j + 1;
    }
    assert kh.keys[..j] == kh.keys;
  }

  lemma {:induction false} CurriculumLinksMeaning(a: set<int>, ch: VarMap, kh: VarMap, curricula: map<CurriculumId, Curriculum>,
                                                  kids: seq<CurriculumId>, v: Var)
    requires Positive(ch) && Positive(kh)
    requires v.Ch? && v in ch.ids
    requires forall k :: k in kids ==> k in curricula
    ensures Sat(a, CurriculumLinks(ch, kh, curricula, kids, v))
        <==> (forall k :: k in kids && v.c in curricula[k].courses && Kh(k, v.h) in kh.ids && ch.ids[v] in a
                ==> kh.ids[Kh(k, v.h)] in a)
  {
    if kids != [] {
      var init, k := kids[..|kids| - 1], kids[|kids| - 1];
      assert forall x :: x in init ==> x in kids;
      assert kids == init + [k];
      CurriculumLinksMeaning(a, ch, kh, curricula, init, v);
      if v.c in curricula[k].courses && Kh(k, v.h) in kh.ids {
        ImplicationMeaning(a, ch.ids[v], kh.ids[Kh(k, v.h)]);
      }
      SatAppend(a, CurriculumLinks(ch, kh, curricula, init, v),
                if v.c in curricula[k].courses && Kh(k, v.h) in kh.ids then [[-ch.ids[v], kh.ids[Kh(k, v.h)]]] else []);
    }
  }

  lemma {:induction false} KhLinksMeaning(a: set<int>, ch: VarMap, kh: VarMap, curricula: map<CurriculumId, Curriculum>,
                                          kids: seq<CurriculumId>, keys: seq<Var>)
    requires Positive(ch) && Positive(kh)
    requires forall v :: v in keys ==> v.Ch? && v in ch.ids
    requires forall k :: k in kids ==> k in curricula
    ensures Sat(a, KhLinks(ch, kh, curricula, kids, keys))
        <==> (forall v, k :: v in keys && k in kids && v.c in curricula[k].courses && Kh(k, v.h) in kh.ids && ch.ids[v] in a
                ==> kh.ids[Kh(k, v.h)] in a)
  {
    if keys != [] {
      var init, v := keys[..|keys| - 1], keys[|keys| - 1];
      assert forall u :: u in init ==> u in keys;
      assert keys == init + [v];
      KhLinksMeaning(a, ch, kh, curricula, kids, init);
      CurriculumLinksMeaning(a, ch, kh, curricula, kids, v);
      SatAppend(a, KhLinks(ch, kh, curricula, kids, init), CurriculumLinks(ch, kh, curricula, kids, v));
    }
  }

  /** A busy curriculum slot has one of the curriculum's courses taught in it. */
  ghost predicate KhCovered(a: set<int>, ch: VarMap, kh: VarMap, curricula: map<CurriculumId, Curriculum>, v: Var)
    requires v.Kh? && v in kh.ids && v.k in curricula
  {
    kh.ids[v] in a ==> exists c :: c in curricula[v.k].courses && Ch(c, v.h) in ch.ids && ch.ids[Ch(c, v.h)] in a
  }

  /** The cover clause of one curriculum-slot key holds exactly when that slot is covered. */
  lemma KhCoverMeaning(a: set<int>, ch: VarMap, kh: VarMap, curricula: map<CurriculumId, Curriculum>, v: Var)
    requires Positive(ch) && Positive(kh)
    requires v.Kh? && v in kh.ids && v.k in curricula
    ensures Sat(a, [KhCover(ch, kh, curricula, v)]) <==> KhCovered(a, ch, kh, curricula, v)
  {
    var cs := curricula[v.k].courses;
    var vs := CoursesAt(cs, v.h);
    PresentPositive(ch, vs);
    CoverMeaning(a, kh.ids[v], Present(ch, vs));
    PresentTrue(a, ch, vs);
    assert (exists u :: u in vs && u in ch.ids && ch.ids[u] in a)
       <==> (exists c :: c in cs && Ch(c, v.h) in ch.ids && ch.ids[Ch(c, v.h)] in a) by {
      forall u | u in vs
        ensures exists c :: c in cs && u == Ch(c, v.h)
      {
        var i :| 0 <= i < |vs| && vs[i] == u;
        assert cs[i] in cs;
      }
      forall c | c in cs
        ensures Ch(c, v.h) in vs
      {
        var i :| 0 <= i < |cs| && cs[i] == c;
        assert vs[i] == Ch(c, v.h);
      }
    }
  }

  lemma {:induction false} KhCoversMeaning(a: set<int>, ch: VarMap, kh: VarMap, curricula: map<CurriculumId, Curriculum>, keys: seq<Var>)
    requires Positive(ch) && Positive(kh)
    requires forall v :: v in keys ==> v.Kh? && v in kh.ids && v.k in curricula
    ensures Sat(a, KhCovers(ch, kh, curricula, keys))
        <==> (forall v :: v in keys && kh.ids[v] in a ==>
                exists c :: c in curricula[v.k].courses && Ch(c, v.h) in ch.ids && ch.ids[Ch(c, v.h)] in a)
  {
    if keys != [] {
      var init, v := keys[..|keys| - 1], keys[|keys| - 1];
      assert forall u :: u in init ==> u in keys;
      assert keys == init + [v];
      KhCoversMeaning(a, ch, kh, curricula, init);
      KhCoverMeaning(a, ch, kh, curricula, v);
      SatAppend(a, KhCovers(ch, kh, curricula, init), [KhCover(ch, kh, curricula, v)]);
    }
  }

  /** An assignment satisfies `relation_ch_kh` exactly when a taught course makes every
      curriculum that lists it busy in that slot (where that variable exists), and a busy
      curriculum slot has one of the curriculum's courses taught in it. */
  lemma ChKhMeaning(a: set<int>, ch: VarMap, kh: VarMap, kids: seq<CurriculumId>, curricula: map<CurriculumId, Curriculum>)
    requires ChMap(ch) && KhOver(kh, curricula) && Positive(ch) && Positive(kh)
    requires forall k :: k in kids ==> k in curricula
    ensures Sat(a, ChKhClauses(ch, kh, kids, curricula))
        <==> && (forall v, k :: (v in ch.ids && k in kids && v.c in curricula[k].courses && Kh(k, v.h) in kh.ids
                                  && ch.ids[v] in a) ==> kh.ids[Kh(k, v.h)] in a)
             && (forall v :: v in kh.ids && kh.ids[v] in a ==>
                   exists c :: c in curricula[v.k].courses && Ch(c, v.h) in ch.ids && ch.ids[Ch(c, v.h)] in a)
  {
    KhLinksMeaning(a, ch, kh, curricula, kids, ch.keys);
    KhCoversMeaning(a, ch, kh, curricula, kh.keys);
    SatAppend(a, KhLinks(ch, kh, curricula, kids, ch.keys), KhCovers(ch, kh, curricula, kh.keys));
  }

  // ---------------------------------------------------------------------
  // relation_ch_chr: ch(c, h) is true exactly when c is taught in slot h in some room

  /** `[-x, y]` for the collected literals x: the first room loop of both chr relations. */
  method ImplyAll(m: VarMap, vs: seq<Var>, y: int) returns (cls: seq<Clause>)
    ensures cls == Implications(Present(m, vs), y)
  {
    cls := [];
    var j := 0;
    while j < |vs|
      invariant 0 <= j <= |vs|
      invariant cls == Implications(Present(m, vs[..j]), y)
    {
      assert vs[..j + 1][..j] == vs[..j];
      if vs[j] in m.ids {
        assert Present(m, vs[..j + 1]) == Present(m, vs[..j]) + [m.ids[vs[j]]];
        ImplicationsSnoc(Present(m, vs[..j]), m.ids[vs[j]], y);
        cls := cls + [[-m.ids[vs[j]], y]];
      } else {
        assert Present(m, vs[..j + 1]) == Present(m, vs[..j]);
      }
      j := j + 1;
    }
    assert vs[..j] == vs;
  }

  /** Both room loops for one (c, h) that `ch` holds: every chr(c, h, r) implies ch(c, h), and
      ch(c, h) implies one of them. */
  function SlotRooms(ch: VarMap, chr: VarMap, rs: seq<RoomId>, c: CourseId, h: int): seq<Clause> {
    if Ch(c, h) in ch.ids then Equivalence(ch.ids[Ch(c, h)], Present(chr, ChrRow(c, h, rs))) else []
  }

  /** The hour loop for one course: slots 0 .. n-1. */
  function CourseSlotRooms(ch: VarMap, chr: VarMap, rs: seq<RoomId>, c: CourseId, n: nat): seq<Clause> {
    if n == 0 then [] else CourseSlotRooms(ch, chr, rs, c, n - 1) + SlotRooms(ch, chr, rs, c, n - 1)
  }

  /** The clause list of `relation_ch_chr`: the course loop over `cs`. */
  function ChChrClauses(ch: VarMap, chr: VarMap, cs: seq<CourseId>, rs: seq<RoomId>, n: nat): seq<Clause> {
    if cs == [] then [] else ChChrClauses(ch, chr, cs[..|cs| - 1], rs, n) + CourseSlotRooms(ch, chr, rs, cs[|cs| - 1], n)
  }

  method RelateSlotRooms(ch: VarMap, chr: VarMap, rs: seq<RoomId>, c: CourseId, n: nat) returns (cls: seq<Clause>)
    ensures cls == CourseSlotRooms(ch, chr, rs, c, n)
  {
    cls := [];
    var h := 0;
    while h < n
      invariant 0 <= h <= n
      invariant cls == CourseSlotRooms(ch, chr, rs, c, h)
    {
      var block := SlotRoomClauses(ch, chr, rs, c, h);
      cls := cls + block;
      h := h + 1;
    }
  }

  /** The clauses for one slot h of course c. */
  method SlotRoomClauses(ch: VarMap, chr: VarMap, rs: seq<RoomId>, c: CourseId, h: int) returns (cls: seq<Clause>)
    ensures cls == SlotRooms(ch, chr, rs, c, h)
  {
    cls := [];
    if Ch(c, h) in ch.ids {
      var y := ch.ids[Ch(c, h)];
      var links := ImplyAll(chr, ChrRow(c, h, rs), y);
      var lits := CollectPresent(chr, ChrRow(c, h, rs));
      cls := links + [[-y] + lits];
    }
  }

  /** complete_encode.py `relation_ch_chr`: courses `cs` and rooms `rs` in dictionary order, n slots. */
  method RelationChChr(ch: VarMap, chr: VarMap, cs: seq<CourseId>, rs: seq<RoomId>, n: nat) returns (clauses: seq<Clause>)
    ensures clauses == ChChrClauses(ch, chr, cs, rs, n)
  {
    clauses := [];
    var i := 0;
    while i < |cs|
      invariant 0 <= i <= |cs|
      invariant clauses == ChChrClauses(ch, chr, cs[..i], rs, n)
    {
      assert cs[..i + 1][..i] == cs[..i];
      var block := RelateSlotRooms(ch, chr, rs, cs[i], n);
      clauses := clauses + block;
      i := i + 1;
    }
    assert cs[..i] == cs;
  }

  /** "y iff one of the held `vs` is true", given positive ids. */
  lemma PresentEquivalence(a: set<int>, y: int, m: VarMap, vs: seq<Var>)
    requires y >= 1 && Positive(m)
    ensures Sat(a, Equivalence(y, Present(m, vs))) <==> (y in a <==> exists v :: v in vs && v in m.ids && m.ids[v] in a)
  {
    PresentPositive(m, vs);
    EquivalenceMeaning(a, y, Present(m, vs));
    PresentTrue(a, m, vs);
  }

  /** Course c is taught in slot h iff it is taught there in some room of `rs` (when `ch` holds (c, h)). */
  ghost predicate SlotLinked(a: set<int>, ch: VarMap, chr: VarMap, rs: seq<RoomId>, c: CourseId, h: int) {
    Ch(c, h) in ch.ids ==>
      (ch.ids[Ch(c, h)] in a <==> exists r :: r in rs && Chr(c, h, r) in chr.ids && chr.ids[Chr(c, h, r)] in a)
  }

  lemma SlotRoomsMeaning(a: set<int>, ch: VarMap, chr: VarMap, rs: seq<RoomId>, c: CourseId, h: int)
    requires Positive(ch) && Positive(chr) && Distinct(rs)
    ensures Sat(a, SlotRooms(ch, chr, rs, c, h)) <==> SlotLinked(a, ch, chr, rs, c, h)
  {
    if Ch(c, h) in ch.ids {
      PresentEquivalence(a, ch.ids[Ch(c, h)], chr, ChrRow(c, h, rs));
      ChrRowSpec(c, h, rs);
      if v :| v in ChrRow(c, h, rs) && v in chr.ids && chr.ids[v] in a {
        assert v == Chr(c, h, v.r);
      }
    }
  }

  /** Every slot of course c below n is linked. */
  ghost predicate SlotsLinked(a: set<int>, ch: VarMap, chr: VarMap, rs: seq<RoomId>, c: CourseId, n: nat) {
    forall h :: 0 <= h < n ==> SlotLinked(a, ch, chr, rs, c, h)
  }

  lemma SlotsLinkedSnoc(a: set<int>, ch: VarMap, chr: VarMap, rs: seq<RoomId>, c: CourseId, n: nat)
    requires n > 0
    ensures SlotsLinked(a, ch, chr, rs, c, n) <==> SlotsLinked(a, ch, chr, rs, c, n - 1) && SlotLinked(a, ch, chr, rs, c, n - 1)
  {
  }

  lemma {:induction false} CourseSlotRoomsMeaning(a: set<int>, ch: VarMap, chr: VarMap, rs: seq<RoomId>, c: CourseId, n: nat)
    requires Positive(ch) && Positive(chr) && Distinct(rs)
    ensures Sat(a, CourseSlotRooms(ch, chr, rs, c, n)) <==> SlotsLinked(a, ch, chr, rs, c, n)
  {
    if n > 0 {
      var prev, block := CourseSlotRooms(ch, chr, rs, c, n - 1), SlotRooms(ch, chr, rs, c, n - 1);
      assert CourseSlotRooms(ch, chr, rs, c, n) == prev + block;
      CourseSlotRoomsMeaning(a, ch, chr, rs, c, n - 1);
      SlotRoomsMeaning(a, ch, chr, rs, c, n - 1);
      SatAppend(a, prev, block);
      SlotsLinkedSnoc(a, ch, chr, rs, c, n);
      MeaningStep(Sat(a, CourseSlotRooms(ch, chr, rs, c, n)), Sat(a, prev), Sat(a, block),
                  SlotsLinked(a, ch, chr, rs, c, n), SlotsLinked(a, ch, chr, rs, c, n - 1), SlotLinked(a, ch, chr, rs, c, n - 1));
    }
  }

  /** Every course of `cs` has all its slots below n linked. */
  ghost predicate CoursesLinked(a: set<int>, ch: VarMap, chr: VarMap, cs: seq<CourseId>, rs: seq<RoomId>, n: nat) {
    forall c :: c in cs ==> SlotsLinked(a, ch, chr, rs, c, n)
  }

  lemma CoursesLinkedSnoc(a: set<int>, ch: VarMap, chr: VarMap, cs: seq<CourseId>, rs: seq<RoomId>, n: nat)
    requires cs != []
    ensures CoursesLinked(a, ch, chr, cs, rs, n)
        <==> CoursesLinked(a, ch, chr, cs[..|cs| - 1], rs, n) && SlotsLinked(a, ch, chr, rs, cs[|cs| - 1], n)
  {
    assert cs == cs[..|cs| - 1] + [cs[|cs| - 1]];
  }

  lemma {:induction false} ChChrLinked(a: set<int>, ch: VarMap, chr: VarMap, cs: seq<CourseId>, rs: seq<RoomId>, n: nat)
    requires Positive(ch) && Positive(chr) && Distinct(rs)
    ensures Sat(a, ChChrClauses(ch, chr, cs, rs, n)) <==> CoursesLinked(a, ch, chr, cs, rs, n)
  {
    if cs != [] {
      var init, c := cs[..|cs| - 1], cs[|cs| - 1];
      var prev, block := ChChrClauses(ch, chr, init, rs, n), CourseSlotRooms(ch, chr, rs, c, n);
      assert ChChrClauses(ch, chr, cs, rs, n) == prev + block;
      ChChrLinked(a, ch, chr, init, rs, n);
      CourseSlotRoomsMeaning(a, ch, chr, rs, c, n);
      SatAppend(a, prev, block);
      CoursesLinkedSnoc(a, ch, chr, cs, rs, n);
      MeaningStep(Sat(a, ChChrClauses(ch, chr, cs, rs, n)), Sat(a, prev), Sat(a, block),
                  CoursesLinked(a, ch, chr, cs, rs, n), CoursesLinked(a, ch, chr, init, rs, n), SlotsLinked(a, ch, chr, rs, c, n));
    }
  }

  /** An assignment satisfies `relation_ch_chr` exactly when, for every course of `cs` and slot
      below n that `ch` holds, the course is taught in that slot iff it is taught there in some room. */
  lemma ChChrMeaning(a: set<int>, ch: VarMap, chr: VarMap, cs: seq<CourseId>, rs: seq<RoomId>, n: nat)
    requires Positive(ch) && Positive(chr) && Distinct(rs)
    ensures Sat(a, ChChrClauses(ch, chr, cs, rs, n))
        <==> (forall c, h :: c in cs && 0 <= h < n && Ch(c, h) in ch.ids ==>
               (ch.ids[Ch(c, h)] in a <==> exists r :: r in rs && Chr(c, h, r) in chr.ids && chr.ids[Chr(c, h, r)] in a))
  {
    ChChrLinked(a, ch, chr, cs, rs, n);
    if CoursesLinked(a, ch, chr, cs, rs, n) {
      forall c, h | c in cs && 0 <= h < n && Ch(c, h) in ch.ids
        ensures ch.ids[Ch(c, h)] in a <==> exists r :: r in rs && Chr(c, h, r) in chr.ids && chr.ids[Chr(c, h, r)] in a
      {
        assert SlotsLinked(a, ch, chr, rs, c, n);
        assert SlotLinked(a, ch, chr, rs, c, h);
      }
    } else {
      var c :| c in cs && !SlotsLinked(a, ch, chr, rs, c, n);
      var h :| 0 <= h < n && !SlotLinked(a, ch, chr, rs, c, h);
      assert c in cs && 0 <= h < n && Ch(c, h) in ch.ids;
    }
  }

  // ---------------------------------------------------------------------
  // relation_cr_chr: cr(c, r) is true exactly when c is taught in room r in some slot

  /** The keys (c, h, r) for h = 0 .. n-1. */
  function HourRun(c: CourseId, n: nat, r: RoomId): (vs: seq<Var>)
    ensures |vs| == n && forall h :: 0 <= h < n ==> vs[h] == Chr(c, h, r)
  {
    seq(n, h requires 0 <= h < n => Chr(c, h, r))
  }

  /** Both hour loops for one (c, r) that `cr` holds. */
  function RoomSlots(cr: VarMap, chr: VarMap, c: CourseId, r: RoomId, n: nat): seq<Clause> {
    if Cr(c, r) in cr.ids then Equivalence(cr.ids[Cr(c, r)], Present(chr, HourRun(c, n, r))) else []
  }

  /** The room loop for one course. */
  function CourseRoomSlots(cr: VarMap, chr: VarMap, c: CourseId, rs: seq<RoomId>, n: nat): seq<Clause> {
    if rs == [] then [] else CourseRoomSlots(cr, chr, c, rs[..|rs| - 1], n) + RoomSlots(cr, chr, c, rs[|rs| - 1], n)
  }

  /** The clause list of `relation_cr_chr`: the course loop over `cs`. */
  function CrChrClauses(cr: VarMap, chr: VarMap, cs: seq<CourseId>, rs: seq<RoomId>, n: nat): seq<Clause> {
    if cs == [] then [] else CrChrClauses(cr, chr, cs[..|cs| - 1], rs, n) + CourseRoomSlots(cr, chr, cs[|cs| - 1], rs, n)
  }

  method RelateRoomSlots(cr: VarMap, chr: VarMap, c: CourseId, rs: seq<RoomId>, n: nat) returns (cls: seq<Clause>)
    ensures cls == CourseRoomSlots(cr, chr, c, rs, n)
  {
    cls := [];
    var j := 0;
    while j < |rs|
      invariant 0 <= j <= |rs|
      invariant cls == CourseRoomSlots(cr, chr, c, rs[..j], n)
    {
      var block := RoomLoops(cr, chr, c, rs[j], n);
      CourseRoomSlotsSnoc(cr, chr, c, rs, j, n);
      cls := cls + block;
      j := j + 1;
    }
    assert rs[..j] == rs;
  }

  /** The two hour loops for one (c, r): skipped when `cr` lacks the key. */
  method RoomLoops(cr: VarMap, chr: VarMap, c: CourseId, r: RoomId, n: nat) returns (block: seq<Clause>)
    ensures block == RoomSlots(cr, chr, c, r, n)
  {
    block := [];
    if Cr(c, r) in cr.ids {
      var y := cr.ids[Cr(c, r)];
      var links := ImplyAll(chr, HourRun(c, n, r), y);
      var lits := CollectPresent(chr, HourRun(c, n, r));
      block := links + [[-y] + lits];
    }
  }

  lemma CourseRoomSlotsSnoc(cr: VarMap, chr: VarMap, c: CourseId, rs: seq<RoomId>, j: nat, n: nat)
    requires j < |rs|
    ensures CourseRoomSlots(cr, chr, c, rs[..j + 1], n) == CourseRoomSlots(cr, chr, c, rs[..j], n) + RoomSlots(cr, chr, c, rs[j], n)
  {
    assert rs[..j + 1][..j] == rs[..j];
  }

  /** complete_encode.py `relation_cr_chr`. */
  method RelationCrChr(cr: VarMap, chr: VarMap, cs: seq<CourseId>, rs: seq<RoomId>, n: nat) returns (clauses: seq<Clause>)
    ensures clauses == CrChrClauses(cr, chr, cs, rs, n)
  {
    clauses := [];
    var i := 0;
    while i < |cs|
      invariant 0 <= i <= |cs|
      invariant clauses == CrChrClauses(cr, chr, cs[..i], rs, n)
    {
      assert cs[..i + 1][..i] == cs[..i];
      var block := RelateRoomSlots(cr, chr, cs[i], rs, n);
      clauses := clauses + block;
      i := i + 1;
    }
    assert cs[..i] == cs;
  }

  lemma RoomSlotsMeaning(a: set<int>, cr: VarMap, chr: VarMap, c: CourseId, r: RoomId, n: nat)
    requires Positive(cr) && Positive(chr)
    ensures Sat(a, RoomSlots(cr, chr, c, r, n))
        <==> (Cr(c, r) in cr.ids ==>
               (cr.ids[Cr(c, r)] in a <==> exists h :: 0 <= h < n && Chr(c, h, r) in chr.ids && chr.ids[Chr(c, h, r)] in a))
  {
    if Cr(c, r) in cr.ids {
      var vs := HourRun(c, n, r);
      PresentEquivalence(a, cr.ids[Cr(c, r)], chr, vs);
      if v :| v in vs && v in chr.ids && chr.ids[v] in a {
        var h :| 0 <= h < n && vs[h] == v;
      }
      if h :| 0 <= h < n && Chr(c, h, r) in chr.ids && chr.ids[Chr(c, h, r)] in a {
        assert vs[h] in vs;
      }
    }
  }

  lemma {:induction false} CourseRoomSlotsMeaning(a: set<int>, cr: VarMap, chr: VarMap, c: CourseId, rs: seq<RoomId>, n: nat)
    requires Positive(cr) && Positive(chr)
    ensures Sat(a, CourseRoomSlots(cr, chr, c, rs, n))
        <==> (forall r :: r in rs && Cr(c, r) in cr.ids ==>
               (cr.ids[Cr(c, r)] in a <==> exists h :: 0 <= h < n && Chr(c, h, r) in chr.ids && chr.ids[Chr(c, h, r)] in a))
  {
    if rs != [] {
      var init, r := rs[..|rs| - 1], rs[|rs| - 1];
      assert rs == init + [r];
      CourseRoomSlotsMeaning(a, cr, chr, c, init, n);
      RoomSlotsMeaning(a, cr, chr, c, r, n);
      SatAppend(a, CourseRoomSlots(cr, chr, c, init, n), RoomSlots(cr, chr, c, r, n));
    }
  }

  /** An assignment satisfies `relation_cr_chr` exactly when, for every course of `cs` and room of
      `rs` that `cr` holds, the course uses the room iff it is taught in that room in some slot below n. */
  lemma {:induction false} CrChrMeaning(a: set<int>, cr: VarMap, chr: VarMap, cs: seq<CourseId>, rs: seq<RoomId>, n: nat)
    requires Positive(cr) && Positive(chr)
    ensures Sat(a, CrChrClauses(cr, chr, cs, rs, n))
        <==> (forall c, r :: c in cs && r in rs && Cr(c, r) in cr.ids ==>
               (cr.ids[Cr(c, r)] in a <==> exists h :: 0 <= h < n && Chr(c, h, r) in chr.ids && chr.ids[Chr(c, h, r)] in a))
  {
    if cs != [] {
      var init, c := cs[..|cs| - 1], cs[|cs| - 1];
      assert cs == init + [c];
      CrChrMeaning(a, cr, chr, init, rs, n);
      CourseRoomSlotsMeaning(a, cr, chr, c, rs, n);
      SatAppend(a, CrChrClauses(cr, chr, init, rs, n), CourseRoomSlots(cr, chr, c, rs, n));
    }
  }
}
