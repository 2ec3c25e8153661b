/**
 * Calendar arithmetic of a CTT instance: absolute time slots are numbered
 * 0, 1, ... day by day, `ppd` (periods per day) slots per day.
 */
module Calendar {
  import opened Seqs

  /** ceil(a / b) for a positive divisor (Dafny's `/` floors when b > 0). */
  function CeilDiv(a: int, b: int): int
    requires b >= 1
  {
    -((-a) / b)
  }

  /** The day a slot belongs to, written as the source writes it: ceil((h+1)/ppd) - 1. */
  function Day(h: int, ppd: int): int
    requires ppd >= 1
  {
    CeilDiv(h + 1, ppd) - 1
  }

  /** The slots of day `d`, in increasing order. */
  function HoursForDay(d: int, ppd: int): seq<int> {
    Range(d * ppd, d * ppd + ppd)
  }

  predicate IsFirstSlotOfDay(h: int, ppd: int)
    requires ppd >= 1
  {
    h % ppd == 0
  }

  predicate IsLastSlotOfDay(h: int, ppd: int)
    requires ppd >= 1
  {
    (h + 1) % ppd == 0
  }

  /** Euclidean division is determined by any quotient/remainder decomposition. */
  lemma DivUnique(a: int, b: int, q: int, r: int)
    requires b >= 1 && a == q * b + r && 0 <= r < b
    ensures a / b == q && a % b == r
  {
    var q', r' := a / b, a % b;
    assert a == q' * b + r';
    assert (q - q') * b == r' - r;
    if q' < q {
      MulAtLeast(q - q', b);
    } else if q' > q {
      MulAtLeast(q' - q, b);
    }
  }

  lemma MulAtLeast(x: int, b: int)
    requires x >= 1 && b >= 1
    ensures x * b >= b
  {
  }

  /** The ceiling formula is plain floor division of the slot. */
  lemma DayIsFloorDiv(h: int, ppd: int)
    requires ppd >= 1
    ensures Day(h, ppd) == h / ppd
  {
    var q, r := h / ppd, h % ppd;
    assert -(h + 1) == (-q - 1) * ppd + (ppd - 1 - r);
    DivUnique(-(h + 1), ppd, -q - 1, ppd - 1 - r);
  }

  /** A slot's day lies between 0 and the slot itself. */
  lemma DayBounds(h: int, ppd: int)
    requires h >= 0 && ppd >= 1
    ensures 0 <= Day(h, ppd) <= h
  {
    DayIsFloorDiv(h, ppd);
    var q := h / ppd;
    if q > h {
      assert q * ppd >= q by { MulAtLeast(ppd, q); }
    }
  }

  /** The slots of a day form the run d*ppd, d*ppd+1, ..., d*ppd+ppd-1. */
  lemma HoursForDayShape(d: int, ppd: int)
    requires ppd >= 0
    ensures |HoursForDay(d, ppd)| == ppd
    ensures forall i :: 0 <= i < ppd ==> HoursForDay(d, ppd)[i] == d * ppd + i
    ensures forall i, j :: 0 <= i < j < ppd ==> HoursForDay(d, ppd)[i] < HoursForDay(d, ppd)[j]
  {
    RangeShape(d * ppd, d * ppd + ppd);
  }

  /** Round trip, one way: every slot listed for day `d` belongs to day `d`. */
  lemma DayOfListedHour(d: int, ppd: int, h: int)
    requires ppd >= 1 && h in HoursForDay(d, ppd)
    ensures Day(h, ppd) == d
  {
    HoursForDayShape(d, ppd);
    var i :| 0 <= i < ppd && HoursForDay(d, ppd)[i] == h;
    DivUnique(h, ppd, d, i);
    DayIsFloorDiv(h, ppd);
  }

  /** Round trip, other way: a slot is listed among the slots of its own day. */
  lemma HourInOwnDay(h: int, ppd: int)
    requires ppd >= 1
    ensures h in HoursForDay(Day(h, ppd), ppd)
    ensures |HoursForDay(Day(h, ppd), ppd)| == ppd && HoursForDay(Day(h, ppd), ppd)[h % ppd] == h
  {
    DayIsFloorDiv(h, ppd);
    HoursForDayShape(h / ppd, ppd);
    assert HoursForDay(h / ppd, ppd)[h % ppd] == h;
  }

  /** Two different days share no slot. */
  lemma DaysDisjoint(d: int, d': int, ppd: int)
    requires ppd >= 1 && d != d'
    ensures forall h :: h in HoursForDay(d, ppd) ==> h !in HoursForDay(d', ppd)
  {
    forall h | h in HoursForDay(d, ppd)
      ensures h !in HoursForDay(d', ppd)
    {
      DayOfListedHour(d, ppd, h);
      if h in HoursForDay(d', ppd) {
        DayOfListedHour(d', ppd, h);
      }
    }
  }

  /** The slots of days 0 .. days-1, concatenated day after day. */
  function AllDays(days: nat, ppd: int): seq<int> {
    if days == 0 then [] else AllDays(days - 1, ppd) + HoursForDay(days - 1, ppd)
  }

  /** Concatenating the days in order enumerates every slot 0 .. days*ppd-1 once, in order. */
  lemma {:induction false} AllDaysIsAllSlots(days: nat, ppd: nat)
    ensures AllDays(days, ppd) == Range(0, days * ppd)
  {
    if days > 0 {
      AllDaysIsAllSlots(days - 1, ppd);
      assert (days - 1) * ppd + ppd == days * ppd;
      RangeAppend(0, (days - 1) * ppd, days * ppd);
    }
  }

  /** A slot is the first of its day exactly when it opens the run of its day. */
  lemma FirstSlotIsDayStart(h: int, ppd: int)
    requires ppd >= 1
    ensures |HoursForDay(Day(h, ppd), ppd)| == ppd
    ensures IsFirstSlotOfDay(h, ppd) <==> h == HoursForDay(Day(h, ppd), ppd)[0]
  {
    HourInOwnDay(h, ppd);
    DayIsFloorDiv(h, ppd);
    HoursForDayShape(h / ppd, ppd);
  }

  /** A slot is the last of its day exactly when it closes the run of its day. */
  lemma LastSlotIsDayEnd(h: int, ppd: int)
    requires ppd >= 1
    ensures |HoursForDay(Day(h, ppd), ppd)| == ppd
    ensures IsLastSlotOfDay(h, ppd) <==> h == HoursForDay(Day(h, ppd), ppd)[ppd - 1]
  {
    DayIsFloorDiv(h, ppd);
    var q, r := h / ppd, h % ppd;
    HoursForDayShape(q, ppd);
    if r == ppd - 1 {
      DivUnique(h + 1, ppd, q + 1, 0);
    } else {
      DivUnique(h + 1, ppd, q, r + 1);
    }
  }

  /** The slot after h is on h's day exactly when h is not the last slot of its day. */
  lemma NextSameDay(h: int, ppd: int)
    requires ppd >= 1
    ensures Day(h + 1, ppd) == Day(h, ppd) <==> !IsLastSlotOfDay(h, ppd)
  {
    DayIsFloorDiv(h, ppd);
    DayIsFloorDiv(h + 1, ppd);
    var q, r := h / ppd, h % ppd;
    assert h == q * ppd + r;
    if r + 1 < ppd {
      DivUnique(h + 1, ppd, q, r + 1);
    } else {
      assert (q + 1) * ppd == q * ppd + ppd;
      DivUnique(h + 1, ppd, q + 1, 0);
    }
  }

  /** The slot before h is on h's day exactly when h is not the first slot of its day. */
  lemma PrevSameDay(h: int, ppd: int)
    requires ppd >= 1
    ensures Day(h - 1, ppd) == Day(h, ppd) <==> !IsFirstSlotOfDay(h, ppd)
  {
    DayIsFloorDiv(h, ppd);
    DayIsFloorDiv(h - 1, ppd);
    var q, r := h / ppd, h % ppd;
    assert h == q * ppd + r;
    if r >= 1 {
      DivUnique(h - 1, ppd, q, r - 1);
    } else {
      assert (q - 1) * ppd == q * ppd - ppd;
      DivUnique(h - 1, ppd, q - 1, ppd - 1);
    }
  }

  /** The slot after h is on h's day exactly when h is not the last slot of its day, and the slot
      before h exactly when h is not the first. */
  lemma NeighboursSameDay(h: int, ppd: int)
    requires ppd >= 1
    ensures Day(h + 1, ppd) == Day(h, ppd) <==> !IsLastSlotOfDay(h, ppd)
    ensures Day(h - 1, ppd) == Day(h, ppd) <==> !IsFirstSlotOfDay(h, ppd)
  {
    NextSameDay(h, ppd);
    PrevSameDay(h, ppd);
  }
}
