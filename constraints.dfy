/**
 * Room capacity and isolated lectures (complete_encode.py `room_capacity_hard`,
 * `room_capacity_soft_chr`, `isolated_lectures_hard`, `isolated_lectures_soft`):
 * the clause lists, the loops that build them, and what an assignment must do to
 * satisfy them or how much it pays when it does not.
 */
module Constraints {
  import opened Calendar
  import opened Timetabling
  import opened Variables
  import opened Literals

  // ---------------------------------------------------------------------
  // room_capacity_hard: a course never gets a room too small for it

  /** `[-cr(c, r)]` for each room of `rs` with fewer seats than `ns`, when `cr` holds (c, r). */
  function CapacityRow(cr: VarMap, c: CourseId, ns: int, rs: seq<RoomId>, rooms: map<RoomId, Room>): seq<Clause>
    requires forall r :: r in rs ==> r in rooms
  {
    if rs == [] then []
    else
      var r := rs[|rs| - 1];
      CapacityRow(cr, c, ns, rs[..|rs| - 1], rooms)
        + (if ns > rooms[r].capacity && Cr(c, r) in cr.ids then [[-cr.ids[Cr(c, r)]]] else [])
  }

  /** The clause list of `room_capacity_hard`. */
  function CapacityHardClauses(cr: VarMap, cs: seq<CourseId>, courses: map<CourseId, Course>,
                               rs: seq<RoomId>, rooms: map<RoomId, Room>): seq<Clause>
    requires forall c :: c in cs ==> c in courses
    requires forall r :: r in rs ==> r in rooms
  {
    if cs == [] then []
    else
      var c := cs[|cs| - 1];
      CapacityHardClauses(cr, cs[..|cs| - 1], courses, rs, rooms) + CapacityRow(cr, c, courses[c].numStudents, rs, rooms)
  }

  method CapacityRowLoop(cr: VarMap, c: CourseId, ns: int, rs: seq<RoomId>, rooms: map<RoomId, Room>)
    returns (clauses: seq<Clause>)
    requires forall r :: r in rs ==> r in rooms
    ensures clauses == CapacityRow(cr, c, ns, rs, rooms)
  {
    clauses := [];
    var j := 0;
    while j < |rs|
      invariant 0 <= j <= |rs|
      invariant clauses == CapacityRow(cr, c, ns, rs[..j], rooms)
    {
      var r := rs[j];
      assert rs[..j + 1][..j] == rs[..j];
      if ns > rooms[r].capacity && Cr(c, r) in cr.ids {
        clauses := clauses + [[-cr.ids[Cr(c, r)]]];
      }
      j := j + 1;
    }
    assert rs[..j] == rs;
  }

  /** complete_encode.py `room_capacity_hard`. */
  method RoomCapacityHard(cs: seq<CourseId>, courses: map<CourseId, Course>, rs: seq<RoomId>, rooms: map<RoomId, Room>, cr: VarMap)
    returns (clauses: seq<Clause>)
    requires forall c :: c in cs ==> c in courses
    requires forall r :: r in rs ==> r in rooms
    ensures clauses == CapacityHardClauses(cr, cs, courses, rs, rooms)
  {
    clauses := [];
    var i := 0;
    while i < |cs|
      invariant 0 <= i <= |cs|
      invariant clauses == CapacityHardClauses(cr, cs[..i], courses, rs, rooms)
    {
      var c := cs[i];
      assert cs[..i + 1][..i] == cs[..i];
      var row := CapacityRowLoop(cr, c, courses[c].numStudents, rs, rooms);
      clauses := clauses + row;
      i := i + 1;
    }
    assert cs[..i] == cs;
  }

  lemma {:induction false} CapacityRowMeaning(a: set<int>, cr: VarMap, c: CourseId, ns: int, rs: seq<RoomId>, rooms: map<RoomId, Room>)
    requires Positive(cr)
    requires forall r :: r in rs ==> r in rooms
    ensures Sat(a, CapacityRow(cr, c, ns, rs, rooms))
        <==> (forall r :: r in rs && ns > rooms[r].capacity && Cr(c, r) in cr.ids ==> cr.ids[Cr(c, r)] !in a)
  {
    if rs != [] {
      var init, r := rs[..|rs| - 1], rs[|rs| - 1];
      assert rs == init + [r];
      assert forall x :: x in init ==> x in rs;
      CapacityRowMeaning(a, cr, c, ns, init, rooms);
      if Cr(c, r) in cr.ids {
        NotMeaning(a, cr.ids[Cr(c, r)]);
      }
      SatAppend(a, CapacityRow(cr, c, ns, init, rooms),
                if ns > rooms[r].capacity && Cr(c, r) in cr.ids then [[-cr.ids[Cr(c, r)]]] else []);
    }
  }

  /** An assignment satisfies `room_capacity_hard` exactly when no course is given a room with
      fewer seats than it has students. */
  lemma {:induction false} CapacityHardMeaning(a: set<int>, cr: VarMap, cs: seq<CourseId>, courses: map<CourseId, Course>,
                                               rs: seq<RoomId>, rooms: map<RoomId, Room>)
    requires Positive(cr)
    requires forall c :: c in cs ==> c in courses
    requires forall r :: r in rs ==> r in rooms
    ensures Sat(a, CapacityHardClauses(cr, cs, courses, rs, rooms))
        <==> (forall c, r :: c in cs && r in rs && courses[c].numStudents > rooms[r].capacity && Cr(c, r) in cr.ids ==>
                cr.ids[Cr(c, r)] !in a)
  {
    if cs != [] {
      var init, c := cs[..|cs| - 1], cs[|cs| - 1];
      assert cs == init + [c];
      assert forall x :: x in init ==> x in cs;
      CapacityHardMeaning(a, cr, init, courses, rs, rooms);
      CapacityRowMeaning(a, cr, c, courses[c].numStudents, rs, rooms);
      SatAppend(a, CapacityHardClauses(cr, init, courses, rs, rooms), CapacityRow(cr, c, courses[c].numStudents, rs, rooms));
    }
  }

  // ---------------------------------------------------------------------
  // room_capacity_soft_chr: each lecture in a too-small room costs the missing seats

  /** `(w, [-chr(c, h, r)])` for each slot h < n that `chr` holds. */
  function OverflowSlots(chr: VarMap, c: CourseId, r: RoomId, w: int, n: nat): seq<Weighted> {
    if n == 0 then []
    else
      OverflowSlots(chr, c, r, w, n - 1)
        + (if Chr(c, n - 1, r) in chr.ids then [Weighted(w, [-chr.ids[Chr(c, n - 1, r)]])] else [])
  }

  /** The soft clauses of one course: its slots in each room of `rs` too small for `ns` students. */
  function CapacitySoftRow(chr: VarMap, c: CourseId, ns: int, rs: seq<RoomId>, rooms: map<RoomId, Room>, n: nat): seq<Weighted>
    requires forall r :: r in rs ==> r in rooms
  {
    if rs == [] then []
    else
      var r := rs[|rs| - 1];
      CapacitySoftRow(chr, c, ns, rs[..|rs| - 1], rooms, n)
        + (if ns > rooms[r].capacity then OverflowSlots(chr, c, r, ns - rooms[r].capacity, n) else [])
  }

  /** The weighted list of `room_capacity_soft_chr`. */
  function CapacitySoftClauses(chr: VarMap, cs: seq<CourseId>, courses: map<CourseId, Course>,
                               rs: seq<RoomId>, rooms: map<RoomId, Room>, n: nat): seq<Weighted>
    requires forall c :: c in cs ==> c in courses
    requires forall r :: r in rs ==> r in rooms
  {
    if cs == [] then []
    else
      var c := cs[|cs| - 1];
      CapacitySoftClauses(chr, cs[..|cs| - 1], courses, rs, rooms, n) + CapacitySoftRow(chr, c, courses[c].numStudents, rs, rooms, n)
  }

  method OverflowLoop(chr: VarMap, c: CourseId, r: RoomId, w: int, n: nat) returns (soft: seq<Weighted>)
    ensures soft == OverflowSlots(chr, c, r, w, n)
  {
    soft := [];
    var h := 0;
    while h < n
      invariant 0 <= h <= n
      invariant soft == OverflowSlots(chr, c, r, w, h)
    {
      if Chr(c, h, r) in chr.ids {
        soft := soft + [Weighted(w, [-chr.ids[Chr(c, h, r)]])];
      }
      h := h + 1;
    }
  }

  method CapacitySoftRowLoop(chr: VarMap, c: CourseId, ns: int, rs: seq<RoomId>, rooms: map<RoomId, Room>, n: nat)
    returns (soft: seq<Weighted>)
    requires forall r :: r in rs ==> r in rooms
    ensures soft == CapacitySoftRow(chr, c, ns, rs, rooms, n)
  {
    soft := [];
    var j := 0;
    while j < |rs|
      invariant 0 <= j <= |rs|
      invariant soft == CapacitySoftRow(chr, c, ns, rs[..j], rooms, n)
    {
      var r := rs[j];
      assert rs[..j + 1][..j] == rs[..j];
      if ns > rooms[r].capacity {
        var weight := ns - rooms[r].capacity;
        var block := OverflowLoop(chr, c, r, weight, n);
        soft := soft + block;
      } else {
        assert soft + [] == soft;
      }
      j := j + 1;
    }
    assert rs[..j] == rs;
  }

  /** complete_encode.py `room_capacity_soft_chr`. */
  method RoomCapacitySoftChr(cs: seq<CourseId>, courses: map<CourseId, Course>, rs: seq<RoomId>, rooms: map<RoomId, Room>,
                             chr: VarMap, n: nat)
    returns (soft: seq<Weighted>)
    requires forall c :: c in cs ==> c in courses
    requires forall r :: r in rs ==> r in rooms
    ensures soft == CapacitySoftClauses(chr, cs, courses, rs, rooms, n)
  {
    soft := [];
    var i := 0;
    while i < |cs|
      invariant 0 <= i <= |cs|
      invariant soft == CapacitySoftClauses(chr, cs[..i], courses, rs, rooms, n)
    {
      var c := cs[i];
      assert cs[..i + 1][..i] == cs[..i];
      var row := CapacitySoftRowLoop(chr, c, courses[c].numStudents, rs, rooms, n);
      soft := soft + row;
      i := i + 1;
    }
    assert cs[..i] == cs;
  }

  /** The slots of (c, r) carry weight w each; they are all satisfied exactly when (c, r) is used in no slot. */
  lemma OverflowSlotsSpec(a: set<int>, chr: VarMap, c: CourseId, r: RoomId, w: int, n: nat)
    requires Positive(chr)
    ensures forall v :: v in OverflowSlots(chr, c, r, w, n) ==> v.weight == w
    ensures forall h :: 0 <= h < n && Chr(c, h, r) in chr.ids ==>
              Weighted(w, [-chr.ids[Chr(c, h, r)]]) in OverflowSlots(chr, c, r, w, n)
    ensures SatSoft(a, OverflowSlots(chr, c, r, w, n)) <==> SlotsClear(a, chr, c, r, n)
  {
    OverflowSlotsHas(chr, c, r, w, n);
    OverflowSlotsMeaning(a, chr, c, r, w, n);
  }

  /** No slot of (c, r) that `chr` holds is true in `a`. */
  ghost predicate SlotsClear(a: set<int>, chr: VarMap, c: CourseId, r: RoomId, n: nat) {
    forall h :: 0 <= h < n && Chr(c, h, r) in chr.ids ==> chr.ids[Chr(c, h, r)] !in a
  }

  lemma {:induction false} OverflowSlotsHas(chr: VarMap, c: CourseId, r: RoomId, w: int, n: nat)
    ensures forall v :: v in OverflowSlots(chr, c, r, w, n) ==> v.weight == w
    ensures SlotsListed(OverflowSlots(chr, c, r, w, n), chr, c, r, w, n)
  {
    if n > 0 {
      OverflowSlotsHas(chr, c, r, w, n - 1);
    }
  }

  lemma {:induction false} OverflowSlotsMeaning(a: set<int>, chr: VarMap, c: CourseId, r: RoomId, w: int, n: nat)
    requires Positive(chr)
    ensures SatSoft(a, OverflowSlots(chr, c, r, w, n)) <==> SlotsClear(a, chr, c, r, n)
  {
    if n > 0 {
      OverflowSlotsMeaning(a, chr, c, r, w, n - 1);
      var tail := if Chr(c, n - 1, r) in chr.ids then [Weighted(w, [-chr.ids[Chr(c, n - 1, r)]])] else [];
      if Chr(c, n - 1, r) in chr.ids {
        NotMeaning(a, chr.ids[Chr(c, n - 1, r)]);
      }
      SatSoftAppend(a, OverflowSlots(chr, c, r, w, n - 1), tail);
    }
  }

  /** No slot of course c in a room of `rs` too small for its `ns` students is true in `a`. */
  ghost predicate RowClear(a: set<int>, chr: VarMap, c: CourseId, ns: int, rs: seq<RoomId>, rooms: map<RoomId, Room>, n: nat)
    requires forall r :: r in rs ==> r in rooms
  {
    forall r, h :: r in rs && ns > rooms[r].capacity && 0 <= h < n && Chr(c, h, r) in chr.ids ==> chr.ids[Chr(c, h, r)] !in a
  }

  lemma RowClearSnoc(a: set<int>, chr: VarMap, c: CourseId, ns: int, rs: seq<RoomId>, rooms: map<RoomId, Room>, n: nat)
    requires rs != [] && forall r :: r in rs ==> r in rooms
    ensures forall r :: r in rs[..|rs| - 1] ==> r in rooms
    ensures RowClear(a, chr, c, ns, rs, rooms, n)
        <==> RowClear(a, chr, c, ns, rs[..|rs| - 1], rooms, n) && (ns > rooms[rs[|rs| - 1]].capacity ==> SlotsClear(a, chr, c, rs[|rs| - 1], n))
  {
    assert rs == rs[..|rs| - 1] + [rs[|rs| - 1]];
  }

  /** The clauses of one course: positive weights, one per over-capacity slot, and all satisfied
      exactly when the course never sits in a too-small room. */
  lemma CapacitySoftRowSpec(a: set<int>, chr: VarMap, c: CourseId, ns: int, rs: seq<RoomId>,
                            rooms: map<RoomId, Room>, n: nat)
    requires Positive(chr)
    requires forall r :: r in rs ==> r in rooms
    ensures forall v :: v in CapacitySoftRow(chr, c, ns, rs, rooms, n) ==> v.weight > 0
    ensures forall r, h :: r in rs && ns > rooms[r].capacity && 0 <= h < n && Chr(c, h, r) in chr.ids ==>
              Weighted(ns - rooms[r].capacity, [-chr.ids[Chr(c, h, r)]]) in CapacitySoftRow(chr, c, ns, rs, rooms, n)
    ensures SatSoft(a, CapacitySoftRow(chr, c, ns, rs, rooms, n)) <==> RowClear(a, chr, c, ns, rs, rooms, n)
  {
    CapacitySoftRowHas(chr, c, ns, rs, rooms, n);
    CapacitySoftRowMeaning(a, chr, c, ns, rs, rooms, n);
  }

  lemma {:induction false} CapacitySoftRowHas(chr: VarMap, c: CourseId, ns: int, rs: seq<RoomId>, rooms: map<RoomId, Room>, n: nat)
    requires forall r :: r in rs ==> r in rooms
    ensures PositiveWeights(CapacitySoftRow(chr, c, ns, rs, rooms, n))
    ensures RowListed(CapacitySoftRow(chr, c, ns, rs, rooms, n), chr, c, ns, rs, rooms, n)
  {
    if rs != [] {
      var init, r := rs[..|rs| - 1], rs[|rs| - 1];
      assert forall x :: x in init ==> x in rs;
      CapacitySoftRowHas(chr, c, ns, init, rooms, n);
      OverflowSlotsHas(chr, c, r, ns - rooms[r].capacity, n);
      var prev := CapacitySoftRow(chr, c, ns, init, rooms, n);
      var tail := if ns > rooms[r].capacity then OverflowSlots(chr, c, r, ns - rooms[r].capacity, n) else [];
      assert CapacitySoftRow(chr, c, ns, rs, rooms, n) == prev + tail;
      PositiveWeightsAppend(prev, tail);
      RowListedSnoc(prev, tail, chr, c, ns, rs, rooms, n);
    }
  }

  ghost predicate PositiveWeights(soft: seq<Weighted>) {
    forall v :: v in soft ==> v.weight > 0
  }

  lemma PositiveWeightsAppend(x: seq<Weighted>, y: seq<Weighted>)
    requires PositiveWeights(x) && PositiveWeights(y)
    ensures PositiveWeights(x + y)
  {
  }

  /** `soft` holds the clause of every over-capacity slot of course c in a room of `rs`. */
  ghost predicate RowListed(soft: seq<Weighted>, chr: VarMap, c: CourseId, ns: int, rs: seq<RoomId>, rooms: map<RoomId, Room>, n: nat)
    requires forall r :: r in rs ==> r in rooms
  {
    forall r, h :: r in rs && ns > rooms[r].capacity && 0 <= h < n && Chr(c, h, r) in chr.ids ==>
      Weighted(ns - rooms[r].capacity, [-chr.ids[Chr(c, h, r)]]) in soft
  }

  /** `soft` holds the clause of weight `w` of every slot of course c in room r. */
  ghost predicate SlotsListed(soft: seq<Weighted>, chr: VarMap, c: CourseId, r: RoomId, w: int, n: nat) {
    forall h :: 0 <= h < n && Chr(c, h, r) in chr.ids ==> Weighted(w, [-chr.ids[Chr(c, h, r)]]) in soft
  }

  lemma RowListedSnoc(prev: seq<Weighted>, tail: seq<Weighted>, chr: VarMap, c: CourseId, ns: int, rs: seq<RoomId>,
                      rooms: map<RoomId, Room>, n: nat)
    requires rs != [] && forall r :: r in rs ==> r in rooms
    requires RowListed(prev, chr, c, ns, rs[..|rs| - 1], rooms, n)
    requires ns > rooms[rs[|rs| - 1]].capacity ==>
               SlotsListed(tail, chr, c, rs[|rs| - 1], ns - rooms[rs[|rs| - 1]].capacity, n)
    ensures RowListed(prev + tail, chr, c, ns, rs, rooms, n)
  {
    var init, last := rs[..|rs| - 1], rs[|rs| - 1];
    forall r, h | r in rs && ns > rooms[r].capacity && 0 <= h < n && Chr(c, h, r) in chr.ids
      ensures Weighted(ns - rooms[r].capacity, [-chr.ids[Chr(c, h, r)]]) in prev + tail
    {
      if r != last {
        assert r in init by { assert rs == init + [last]; }
      }
    }
  }

  lemma {:induction false} CapacitySoftRowMeaning(a: set<int>, chr: VarMap, c: CourseId, ns: int, rs: seq<RoomId>,
                                                  rooms: map<RoomId, Room>, n: nat)
    requires Positive(chr)
    requires forall r :: r in rs ==> r in rooms
    ensures SatSoft(a, CapacitySoftRow(chr, c, ns, rs, rooms, n)) <==> RowClear(a, chr, c, ns, rs, rooms, n)
  {
    if rs != [] {
      var init, r := rs[..|rs| - 1], rs[|rs| - 1];
      RowClearSnoc(a, chr, c, ns, rs, rooms, n);
      CapacitySoftRowMeaning(a, chr, c, ns, init, rooms, n);
      if ns > rooms[r].capacity {
        OverflowSlotsMeaning(a, chr, c, r, ns - rooms[r].capacity, n);
        SatSoftAppend(a, CapacitySoftRow(chr, c, ns, init, rooms, n), OverflowSlots(chr, c, r, ns - rooms[r].capacity, n));
      } else {
        assert CapacitySoftRow(chr, c, ns, rs, rooms, n) == CapacitySoftRow(chr, c, ns, init, rooms, n) + [];
      }
    }
  }

  /** No course of `cs` sits in a too-small room in a slot true in `a`. */
  ghost predicate AllClear(a: set<int>, chr: VarMap, cs: seq<CourseId>, courses: map<CourseId, Course>,
                           rs: seq<RoomId>, rooms: map<RoomId, Room>, n: nat)
    requires forall c :: c in cs ==> c in courses
    requires forall r :: r in rs ==> r in rooms
  {
    forall c, r, h :: c in cs && r in rs && courses[c].numStudents > rooms[r].capacity && 0 <= h < n && Chr(c, h, r) in chr.ids ==>
      chr.ids[Chr(c, h, r)] !in a
  }

  lemma AllClearSnoc(a: set<int>, chr: VarMap, cs: seq<CourseId>, courses: map<CourseId, Course>,
                     rs: seq<RoomId>, rooms: map<RoomId, Room>, n: nat)
    requires cs != [] && (forall c :: c in cs ==> c in courses) && forall r :: r in rs ==> r in rooms
    ensures forall c :: c in cs[..|cs| - 1] ==> c in courses
    ensures AllClear(a, chr, cs, courses, rs, rooms, n)
        <==> AllClear(a, chr, cs[..|cs| - 1], courses, rs, rooms, n)
             && RowClear(a, chr, cs[|cs| - 1], courses[cs[|cs| - 1]].numStudents, rs, rooms, n)
  {
    assert cs == cs[..|cs| - 1] + [cs[|cs| - 1]];
  }

  /** Every weight of `room_capacity_soft_chr` is positive; each over-capacity (course, slot, room)
      variable has its clause, weighted by the number of students without a seat; and the list is
      all satisfied exactly when no course sits in a too-small room in any slot. */
  lemma CapacitySoftSpec(a: set<int>, chr: VarMap, cs: seq<CourseId>, courses: map<CourseId, Course>,
                         rs: seq<RoomId>, rooms: map<RoomId, Room>, n: nat)
    requires Positive(chr)
    requires forall c :: c in cs ==> c in courses
    requires forall r :: r in rs ==> r in rooms
    ensures forall v :: v in CapacitySoftClauses(chr, cs, courses, rs, rooms, n) ==> v.weight > 0
    ensures forall c, r, h :: c in cs && r in rs && courses[c].numStudents > rooms[r].capacity && 0 <= h < n && Chr(c, h, r) in chr.ids ==>
              Weighted(courses[c].numStudents - rooms[r].capacity, [-chr.ids[Chr(c, h, r)]])
                in CapacitySoftClauses(chr, cs, courses, rs, rooms, n)
    ensures SatSoft(a, CapacitySoftClauses(chr, cs, courses, rs, rooms, n))
        <==> (forall c, r, h :: c in cs && r in rs && courses[c].numStudents > rooms[r].capacity && 0 <= h < n && Chr(c, h, r) in chr.ids ==>
                chr.ids[Chr(c, h, r)] !in a)
  {
    CapacitySoftHas(chr, cs, courses, rs, rooms, n);
    CapacitySoftMeaning(a, chr, cs, courses, rs, rooms, n);
  }

  lemma {:induction false} CapacitySoftHas(chr: VarMap, cs: seq<CourseId>, courses: map<CourseId, Course>,
                                           rs: seq<RoomId>, rooms: map<RoomId, Room>, n: nat)
    requires forall c :: c in cs ==> c in courses
    requires forall r :: r in rs ==> r in rooms
    ensures PositiveWeights(CapacitySoftClauses(chr, cs, courses, rs, rooms, n))
    ensures AllListed(CapacitySoftClauses(chr, cs, courses, rs, rooms, n), chr, cs, courses, rs, rooms, n)
  {
    if cs != [] {
      var init, c := cs[..|cs| - 1], cs[|cs| - 1];
      assert forall x :: x in init ==> x in cs;
      CapacitySoftHas(chr, init, courses, rs, rooms, n);
      CapacitySoftRowHas(chr, c, courses[c].numStudents, rs, rooms, n);
      var prev, row := CapacitySoftClauses(chr, init, courses, rs, rooms, n), CapacitySoftRow(chr, c, courses[c].numStudents, rs, rooms, n);
      assert CapacitySoftClauses(chr, cs, courses, rs, rooms, n) == prev + row;
      PositiveWeightsAppend(prev, row);
      AllListedSnoc(prev, row, chr, cs, courses, rs, rooms, n);
    }
  }

  /** `soft` holds the clause of every over-capacity (course, slot, room) of `cs`. */
  ghost predicate AllListed(soft: seq<Weighted>, chr: VarMap, cs: seq<CourseId>, courses: map<CourseId, Course>,
                            rs: seq<RoomId>, rooms: map<RoomId, Room>, n: nat)
    requires forall c :: c in cs ==> c in courses
    requires forall r :: r in rs ==> r in rooms
  {
    forall c, r, h :: c in cs && r in rs && courses[c].numStudents > rooms[r].capacity && 0 <= h < n && Chr(c, h, r) in chr.ids ==>
      Weighted(courses[c].numStudents - rooms[r].capacity, [-chr.ids[Chr(c, h, r)]]) in soft
  }

  lemma AllListedSnoc(prev: seq<Weighted>, row: seq<Weighted>, chr: VarMap, cs: seq<CourseId>, courses: map<CourseId, Course>,
                      rs: seq<RoomId>, rooms: map<RoomId, Room>, n: nat)
    requires cs != [] && (forall c :: c in cs ==> c in courses) && forall r :: r in rs ==> r in rooms
    requires AllListed(prev, chr, cs[..|cs| - 1], courses, rs, rooms, n)
    requires RowListed(row, chr, cs[|cs| - 1], courses[cs[|cs| - 1]].numStudents, rs, rooms, n)
    ensures AllListed(prev + row, chr, cs, courses, rs, rooms, n)
  {
    var init, last := cs[..|cs| - 1], cs[|cs| - 1];
    forall c, r, h | c in cs && r in rs && courses[c].numStudents > rooms[r].capacity && 0 <= h < n && Chr(c, h, r) in chr.ids
      ensures Weighted(courses[c].numStudents - rooms[r].capacity, [-chr.ids[Chr(c, h, r)]]) in prev + row
    {
      if c != last {
        assert c in init by { assert cs == init + [last]; }
      }
    }
  }

  lemma {:induction false} CapacitySoftMeaning(a: set<int>, chr: VarMap, cs: seq<CourseId>, courses: map<CourseId, Course>,
                                               rs: seq<RoomId>, rooms: map<RoomId, Room>, n: nat)
    requires Positive(chr)
    requires forall c :: c in cs ==> c in courses
    requires forall r :: r in rs ==> r in rooms
    ensures SatSoft(a, CapacitySoftClauses(chr, cs, courses, rs, rooms, n)) <==> AllClear(a, chr, cs, courses, rs, rooms, n)
  {
    if cs != [] {
      var init, c := cs[..|cs| - 1], cs[|cs| - 1];
      AllClearSnoc(a, chr, cs, courses, rs, rooms, n);
      CapacitySoftMeaning(a, chr, init, courses, rs, rooms, n);
      CapacitySoftRowMeaning(a, chr, c, courses[c].numStudents, rs, rooms, n);
      SatSoftAppend(a, CapacitySoftClauses(chr, init, courses, rs, rooms, n), CapacitySoftRow(chr, c, courses[c].numStudents, rs, rooms, n));
    }
  }

  /** The capacity penalty: zero exactly when no lecture is in a too-small room, and at least the
      missing seats of any lecture that is. */
  lemma CapacitySoftCost(a: set<int>, chr: VarMap, cs: seq<CourseId>, courses: map<CourseId, Course>,
                         rs: seq<RoomId>, rooms: map<RoomId, Room>, n: nat)
    requires Positive(chr)
    requires forall c :: c in cs ==> c in courses
    requires forall r :: r in rs ==> r in rooms
    ensures Cost(a, CapacitySoftClauses(chr, cs, courses, rs, rooms, n)) == 0
        <==> (forall c, r, h :: c in cs && r in rs && courses[c].numStudents > rooms[r].capacity && 0 <= h < n && Chr(c, h, r) in chr.ids ==>
                chr.ids[Chr(c, h, r)] !in a)
    ensures forall c, r, h :: (c in cs && r in rs && courses[c].numStudents > rooms[r].capacity && 0 <= h < n && Chr(c, h, r) in chr.ids
                               && chr.ids[Chr(c, h, r)] in a) ==>
              Cost(a, CapacitySoftClauses(chr, cs, courses, rs, rooms, n)) >= courses[c].numStudents - rooms[r].capacity
  {
    var soft := CapacitySoftClauses(chr, cs, courses, rs, rooms, n);
    CapacitySoftSpec(a, chr, cs, courses, rs, rooms, n);
    CostZero(a, soft);
    forall c, r, h | c in cs && r in rs && courses[c].numStudents > rooms[r].capacity && 0 <= h < n && Chr(c, h, r) in chr.ids
                     && chr.ids[Chr(c, h, r)] in a
      ensures Cost(a, soft) >= courses[c].numStudents - rooms[r].capacity
    {
      var x := chr.ids[Chr(c, h, r)];
      NotMeaning(a, x);
      CostFalsified(a, soft, Weighted(courses[c].numStudents - rooms[r].capacity, [-x]));
    }
  }

  // ---------------------------------------------------------------------
  // isolated_lectures_hard / _soft: a curriculum's lecture has a neighbour on its day

  /** The clause for curriculum k at slot h, if any: a first slot of the day needs h+1, a last slot
      needs h-1, any other slot one of h-1 and h+1 (each only when `kh` holds it). */
  function Isolation(kh: VarMap, k: CurriculumId, h: int, ppd: int): seq<Clause>
    requires ppd >= 1
  {
    if Kh(k, h) !in kh.ids then []
    else
      var lit := -kh.ids[Kh(k, h)];
      if IsFirstSlotOfDay(h, ppd) then
        (if Kh(k, h + 1) in kh.ids then [[lit, kh.ids[Kh(k, h + 1)]]] else [])
      else if IsLastSlotOfDay(h, ppd) then
        (if Kh(k, h - 1) in kh.ids then [[lit, kh.ids[Kh(k, h - 1)]]] else [])
      else
        var neighbours := Present(kh, [Kh(k, h - 1), Kh(k, h + 1)]);
        if neighbours != [] then [[lit] + neighbours] else []
  }

  /** The clauses of curriculum k for the slots below n. */
  function IsolatedRow(kh: VarMap, k: CurriculumId, n: nat, ppd: int): seq<Clause>
    requires ppd >= 1
  {
    if n == 0 then [] else IsolatedRow(kh, k, n - 1, ppd) + Isolation(kh, k, n - 1, ppd)
  }

  /** The clause list of `isolated_lectures_hard`. */
  function IsolatedHardClauses(kh: VarMap, kids: seq<CurriculumId>, n: nat, ppd: int): seq<Clause>
    requires ppd >= 1
  {
    if kids == [] then []
    else IsolatedHardClauses(kh, kids[..|kids| - 1], n, ppd) + IsolatedRow(kh, kids[|kids| - 1], n, ppd)
  }

  /** The body of the slot loop, shared by the hard and the soft generator. */
  method IsolationAt(kh: VarMap, k: CurriculumId, h: int, ppd: int) returns (clauses: seq<Clause>)
    requires ppd >= 1
    ensures clauses == Isolation(kh, k, h, ppd)
  {
    clauses := [];
    if Kh(k, h) !in kh.ids {
      return;
    }
    var lit := -kh.ids[Kh(k, h)];
    if h % ppd == 0 {
      if Kh(k, h + 1) in kh.ids {
        clauses := [[lit, kh.ids[Kh(k, h + 1)]]];
      }
    } else if (h + 1) % ppd == 0 {
      if Kh(k, h - 1) in kh.ids {
        clauses := [[lit, kh.ids[Kh(k, h - 1)]]];
      }
    } else {
      var neighbours := CollectPresent(kh, [Kh(k, h - 1), Kh(k, h + 1)]);
      if neighbours != [] {
        clauses := [[lit] + neighbours];
      }
    }
  }

  method IsolatedRowLoop(kh: VarMap, k: CurriculumId, n: nat, ppd: int) returns (clauses: seq<Clause>)
    requires ppd >= 1
    ensures clauses == IsolatedRow(kh, k, n, ppd)
  {
    clauses := [];
    var h := 0;
    while h < n
      invariant 0 <= h <= n
      invariant clauses == IsolatedRow(kh, k, h, ppd)
    {
      var cl := IsolationAt(kh, k, h, ppd);
      clauses := clauses + cl;
      h := h + 1;
    }
  }

  /** complete_encode.py `isolated_lectures_hard`. */
  method IsolatedLecturesHard(kh: VarMap, kids: seq<CurriculumId>, ppd: int, n: nat) returns (clauses: seq<Clause>)
    requires ppd >= 1
    ensures clauses == IsolatedHardClauses(kh, kids, n, ppd)
  {
    clauses := [];
    var i := 0;
    while i < |kids|
      invariant 0 <= i <= |kids|
      invariant clauses == IsolatedHardClauses(kh, kids[..i], n, ppd)
    {
      assert kids[..i + 1][..i] == kids[..i];
      var row := IsolatedRowLoop(kh, kids[i], n, ppd);
      clauses := clauses + row;
      i := i + 1;
    }
    assert kids[..i] == kids;
  }

  method IsolatedSoftRowLoop(kh: VarMap, k: CurriculumId, n: nat, ppd: int) returns (soft: seq<Weighted>)
    requires ppd >= 1
    ensures soft == Weigh(2, IsolatedRow(kh, k, n, ppd))
  {
    soft := [];
    var h := 0;
    while h < n
      invariant 0 <= h <= n
      invariant soft == Weigh(2, IsolatedRow(kh, k, h, ppd))
    {
      var cl := IsolationAt(kh, k, h, ppd);
      WeighAppend(2, IsolatedRow(kh, k, h, ppd), cl);
      if cl != [] {
        assert cl == [cl[0]];
        soft := soft + [Weighted(2, cl[0])];
      }
      h := h + 1;
    }
  }

  /** complete_encode.py `isolated_lectures_soft`: the clauses of `isolated_lectures_hard`, in the
      same order, each with weight 2. */
  method IsolatedLecturesSoft(kh: VarMap, kids: seq<CurriculumId>, ppd: int, n: nat) returns (soft: seq<Weighted>)
    requires ppd >= 1
    ensures soft == Weigh(2, IsolatedHardClauses(kh, kids, n, ppd))
  {
    soft := [];
    var i := 0;
    while i < |kids|
      invariant 0 <= i <= |kids|
      invariant soft == Weigh(2, IsolatedHardClauses(kh, kids[..i], n, ppd))
    {
      assert kids[..i + 1][..i] == kids[..i];
      WeighAppend(2, IsolatedHardClauses(kh, kids[..i], n, ppd), IsolatedRow(kh, kids[i], n, ppd));
      var row := IsolatedSoftRowLoop(kh, kids[i], n, ppd);
      soft := soft + row;
      i := i + 1;
    }
    assert kids[..i] == kids;
  }

  /** Curriculum k has a lecture in a slot next to h on h's day. */
  ghost predicate Adjacent(a: set<int>, kh: VarMap, k: CurriculumId, h: int, ppd: int)
    requires ppd >= 1
  {
    exists h' :: (h' == h - 1 || h' == h + 1) && Day(h', ppd) == Day(h, ppd) && Kh(k, h') in kh.ids && kh.ids[Kh(k, h')] in a
  }

  /** With two or more periods a day and both same-day neighbours held, the clause of (k, h) is
      satisfied exactly when a lecture of k at h has a lecture of k next to it on the same day. */
  lemma IsolationMeaning(a: set<int>, kh: VarMap, k: CurriculumId, h: int, ppd: int)
    requires Positive(kh) && ppd >= 2 && Kh(k, h) in kh.ids
    requires !IsLastSlotOfDay(h, ppd) ==> Kh(k, h + 1) in kh.ids
    requires !IsFirstSlotOfDay(h, ppd) ==> Kh(k, h - 1) in kh.ids
    ensures Sat(a, Isolation(kh, k, h, ppd)) <==> (kh.ids[Kh(k, h)] in a ==> Adjacent(a, kh, k, h, ppd))
  {
    NeighboursSameDay(h, ppd);
    var x := kh.ids[Kh(k, h)];
    if IsFirstSlotOfDay(h, ppd) {
      assert !IsLastSlotOfDay(h, ppd) by {
        DivUnique(h, ppd, h / ppd, 0);
        DivUnique(h + 1, ppd, h / ppd, 1);
      }
      ImplicationMeaning(a, x, kh.ids[Kh(k, h + 1)]);
    } else if IsLastSlotOfDay(h, ppd) {
      ImplicationMeaning(a, x, kh.ids[Kh(k, h - 1)]);
    } else {
      var nb := [Kh(k, h - 1), Kh(k, h + 1)];
      PresentAll(kh, nb);
      var ys := Present(kh, nb);
      assert ys == [kh.ids[Kh(k, h - 1)], kh.ids[Kh(k, h + 1)]];
      CoverMeaning(a, x, ys);
      assert [-x] + ys == [-x, ys[0], ys[1]];
    }
  }

  /** Every slot of curriculum k below n is held. */
  ghost predicate FullRow(kh: VarMap, k: CurriculumId, n: nat) {
    forall h :: 0 <= h < n ==> Kh(k, h) in kh.ids
  }

  lemma {:induction false} IsolatedRowMeaning(a: set<int>, kh: VarMap, k: CurriculumId, m: nat, days: nat, ppd: int)
    requires Positive(kh) && ppd >= 2 && m <= days * ppd && FullRow(kh, k, days * ppd)
    ensures Sat(a, IsolatedRow(kh, k, m, ppd))
        <==> (forall h :: 0 <= h < m && kh.ids[Kh(k, h)] in a ==> Adjacent(a, kh, k, h, ppd))
  {
    if m > 0 {
      var h := m - 1;
      IsolatedRowMeaning(a, kh, k, h, days, ppd);
      if !IsLastSlotOfDay(h, ppd) {
        assert h + 1 != days * ppd by {
          DivUnique(days * ppd, ppd, days, 0);
        }
      }
      IsolationMeaning(a, kh, k, h, ppd);
      SatAppend(a, IsolatedRow(kh, k, h, ppd), Isolation(kh, k, h, ppd));
    }
  }

  /** With two or more periods a day and every (curriculum, slot) variable present, an assignment
      satisfies `isolated_lectures_hard` exactly when every lecture of a curriculum has another
      lecture of that curriculum in an adjacent slot of the same day. */
  lemma {:induction false} IsolatedHardMeaning(a: set<int>, kh: VarMap, kids: seq<CurriculumId>, days: nat, ppd: int)
    requires Positive(kh) && ppd >= 2
    requires forall k :: k in kids ==> FullRow(kh, k, days * ppd)
    ensures Sat(a, IsolatedHardClauses(kh, kids, days * ppd, ppd))
        <==> (forall k, h :: k in kids && 0 <= h < days * ppd && Kh(k, h) in kh.ids && kh.ids[Kh(k, h)] in a ==> Adjacent(a, kh, k, h, ppd))
  {
    if kids != [] {
      var init, k := kids[..|kids| - 1], kids[|kids| - 1];
      assert kids == init + [k];
      assert forall x :: x in init ==> x in kids;
      IsolatedHardMeaning(a, kh, init, days, ppd);
      IsolatedRowMeaning(a, kh, k, days * ppd, days, ppd);
      SatAppend(a, IsolatedHardClauses(kh, init, days * ppd, ppd), IsolatedRow(kh, k, days * ppd, ppd));
    }
  }

  /** With one period a day no slot has a neighbour on its own day, so every lecture is isolated. */
  lemma NoNeighbourSinglePeriod(a: set<int>, kh: VarMap, k: CurriculumId, h: int)
    ensures !Adjacent(a, kh, k, h, 1)
  {
    forall h' | h' == h - 1 || h' == h + 1
      ensures Day(h', 1) != Day(h, 1)
    {
      DayIsFloorDiv(h', 1);
      DayIsFloorDiv(h, 1);
    }
  }

  /** With one period a day every slot is the first of its day, so the clause of (k, h) is
      `[-kh(k,h), kh(k,h+1)]`: a lecture of k at h asks for one at h + 1, which is the next day. */
  lemma IsolationSinglePeriod(a: set<int>, kh: VarMap, k: CurriculumId, h: int)
    requires Positive(kh) && Kh(k, h) in kh.ids
    ensures Sat(a, Isolation(kh, k, h, 1))
        <==> (Kh(k, h + 1) in kh.ids && kh.ids[Kh(k, h)] in a ==> kh.ids[Kh(k, h + 1)] in a)
  {
    assert IsFirstSlotOfDay(h, 1);
    if Kh(k, h + 1) in kh.ids {
      ImplicationMeaning(a, kh.ids[Kh(k, h)], kh.ids[Kh(k, h + 1)]);
    }
  }

  /** With one period a day and a row of exactly `days` slots, the clauses of curriculum k below m hold exactly when
      a lecture of k on a day other than the last forces one on the following day. */
  lemma {:induction false} IsolatedRowSinglePeriod(a: set<int>, kh: VarMap, k: CurriculumId, m: nat, days: nat)
    requires Positive(kh) && m <= days && FullRow(kh, k, days) && Kh(k, days) !in kh.ids
    ensures Sat(a, IsolatedRow(kh, k, m, 1))
        <==> (forall h :: 0 <= h < m && h + 1 < days && kh.ids[Kh(k, h)] in a ==> kh.ids[Kh(k, h + 1)] in a)
  {
    if m > 0 {
      var h := m - 1;
      IsolatedRowSinglePeriod(a, kh, k, h, days);
      IsolationSinglePeriod(a, kh, k, h);
      SatAppend(a, IsolatedRow(kh, k, h, 1), Isolation(kh, k, h, 1));
    }
  }

  /** With one period a day and each curriculum's row exactly the `days` slots, `isolated_lectures_hard`
      chains each curriculum's busy days: a lecture forces one on the next day, and the last day is
      left free.  (Every such lecture is isolated, by `NoNeighbourSinglePeriod`.) */
  lemma {:induction false} IsolatedHardSinglePeriod(a: set<int>, kh: VarMap, kids: seq<CurriculumId>, days: nat)
    requires Positive(kh)
    requires forall k :: k in kids ==> FullRow(kh, k, days) && Kh(k, days) !in kh.ids
    ensures Sat(a, IsolatedHardClauses(kh, kids, days, 1))
        <==> (forall k, h :: (k in kids && 0 <= h && h + 1 < days && Kh(k, h) in kh.ids && Kh(k, h + 1) in kh.ids
                              && kh.ids[Kh(k, h)] in a) ==> kh.ids[Kh(k, h + 1)] in a)
  {
    if kids != [] {
      var init, k := kids[..|kids| - 1], kids[|kids| - 1];
      assert kids == init + [k];
      assert forall x :: x in init ==> x in kids;
      IsolatedHardSinglePeriod(a, kh, init, days);
      IsolatedRowSinglePeriod(a, kh, k, days, days);
      SatAppend(a, IsolatedHardClauses(kh, init, days, 1), IsolatedRow(kh, k, days, 1));
    }
  }

  /** The soft form costs nothing exactly when the hard form is satisfied, and each of its clauses
      costs 2. */
  lemma IsolatedSoftCost(a: set<int>, kh: VarMap, kids: seq<CurriculumId>, n: nat, ppd: int)
    requires ppd >= 1
    ensures forall w :: w in Weigh(2, IsolatedHardClauses(kh, kids, n, ppd)) ==> w.weight == 2
    ensures Cost(a, Weigh(2, IsolatedHardClauses(kh, kids, n, ppd))) == 0 <==> Sat(a, IsolatedHardClauses(kh, kids, n, ppd))
  {
    var cls := IsolatedHardClauses(kh, kids, n, ppd);
    WeighSpec(a, 2, cls);
    CostZero(a, Weigh(2, cls));
  }
}
