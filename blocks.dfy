/** Cutting each day's operating window into one-hour blocks (genblocks) and
    grouping the blocks by day (day_blocks in build_model). Times are minutes
    after midnight. */
module Blocks {
  import opened Common

  /** The five week days the schedule knows; the output ordering maps exactly
      these to 1..5. */
  datatype Day = Monday | Tuesday | Wednesday | Thursday | Friday

  const BlockMinutes: int := 60
  const MinutesPerDay: int := 1440

  /** One entry of blks: (day, index, start, end). */
  datatype Block = Block(day: Day, idx: nat, start: int, end: int)

  /** One entry of day_blocks[d]: (index, start, end). */
  datatype Slot = Slot(idx: nat, start: int, end: int)

  /** Both window ends are times of day, and a block started before the end
      never runs past midnight (the source's time-of-day arithmetic would
      wrap there). */
  predicate ValidWindow(winStart: int, winEnd: int)
  {
    0 <= winStart < MinutesPerDay && 0 <= winEnd <= MinutesPerDay - BlockMinutes
  }

  /** How many whole blocks fit in the window; a partial tail does not count. */
  function NumBlocks(winStart: int, winEnd: int): nat
  {
    if winStart < winEnd then (winEnd - winStart) / BlockMinutes else 0
  }

  /** Block i fits in the window exactly when i is below NumBlocks. */
  lemma NumBlocksFits(winStart: int, winEnd: int, i: nat)
    ensures i < NumBlocks(winStart, winEnd) <==> winStart + BlockMinutes * i + BlockMinutes <= winEnd
  {
  }

  /** NumBlocks is the floor of the window length over the block length:
      every counted block ends inside the window and the next one would not. */
  lemma NumBlocksIsFloor(winStart: int, winEnd: int)
    requires winStart < winEnd
    ensures BlockMinutes * NumBlocks(winStart, winEnd) <= winEnd - winStart
    ensures winEnd - winStart < BlockMinutes * (NumBlocks(winStart, winEnd) + 1)
  {
  }

  /** The reference definition of one day's blocks. */
  function DayBlocks(d: Day, winStart: int, winEnd: int): seq<Block>
  {
    seq(NumBlocks(winStart, winEnd), i requires 0 <= i =>
      Block(d, i, winStart + BlockMinutes * i, winStart + BlockMinutes * i + BlockMinutes))
  }

  /** The reference definition of blks: each day's blocks, day after day. */
  function AllBlocks(days: seq<Day>, winStart: int, winEnd: int): seq<Block>
  {
    if days == [] then []
    else AllBlocks(days[..|days| - 1], winStart, winEnd) + DayBlocks(days[|days| - 1], winStart, winEnd)
  }

  /** genblocks: for each day, walk the window an hour at a time, stopping
      before a block whose end would pass the window end. */
  method GenBlocks(days: seq<Day>, winStart: int, winEnd: int) returns (blocks: seq<Block>)
    requires ValidWindow(winStart, winEnd)
    ensures blocks == AllBlocks(days, winStart, winEnd)
  {
    blocks := [];
    for j := 0 to |days|
      invariant blocks == AllBlocks(days[..j], winStart, winEnd)
    {
      assert days[..j + 1][..j] == days[..j];
      var d := days[j];
      ghost var before := blocks;
      ghost var n := NumBlocks(winStart, winEnd);
      var cur := winStart;
      var fin := winEnd;
      var i: nat := 0;
      while cur < fin
        invariant cur == winStart + BlockMinutes * i
        invariant i <= n
        invariant blocks == before + DayBlocks(d, winStart, winEnd)[..i]
        decreases fin - cur
      {
        var s := cur;
        var e := cur + BlockMinutes;
        if e > winEnd {
          break;
        }
        NumBlocksFits(winStart, winEnd, i);
        assert DayBlocks(d, winStart, winEnd)[..i + 1]
            == DayBlocks(d, winStart, winEnd)[..i] + [Block(d, i, s, e)];
        blocks := blocks + [Block(d, i, s, e)];
        cur := cur + BlockMinutes;
        i := i + 1;
      }
      NumBlocksFits(winStart, winEnd, i);
      assert i == n;
      assert DayBlocks(d, winStart, winEnd)[..i] == DayBlocks(d, winStart, winEnd);
    }
    assert days[..|days|] == days;
  }

  /** The shape genblocks promises for one day: dense indices from 0, starts
      one block apart, uniform length, every block inside the window, and the
      block after the last one would overrun the window end. */
  lemma DayBlocksShape(d: Day, winStart: int, winEnd: int)
    ensures forall i :: 0 <= i < |DayBlocks(d, winStart, winEnd)| ==>
      var b := DayBlocks(d, winStart, winEnd)[i];
      b.day == d && b.idx == i && b.end - b.start == BlockMinutes &&
      winStart <= b.start && b.end <= winEnd
    ensures forall i :: 0 <= i && i + 1 < |DayBlocks(d, winStart, winEnd)| ==>
      DayBlocks(d, winStart, winEnd)[i].end == DayBlocks(d, winStart, winEnd)[i + 1].start
    ensures winStart < winEnd ==>
      winStart + BlockMinutes * |DayBlocks(d, winStart, winEnd)| + BlockMinutes > winEnd
  {
    forall i | 0 <= i < NumBlocks(winStart, winEnd)
      ensures winStart + BlockMinutes * i + BlockMinutes <= winEnd
    {
      NumBlocksFits(winStart, winEnd, i);
    }
    NumBlocksFits(winStart, winEnd, NumBlocks(winStart, winEnd));
  }

  /** A block is generated iff its day is one of the days and its index is
      below the per-day count, and then its times are the reference ones. */
  lemma {:induction false} AllBlocksMember(days: seq<Day>, winStart: int, winEnd: int, b: Block)
    ensures b in AllBlocks(days, winStart, winEnd) <==>
      b.day in days && b.idx < NumBlocks(winStart, winEnd) &&
      b.start == winStart + BlockMinutes * b.idx && b.end == b.start + BlockMinutes
  {
    if days != [] {
      var init := days[..|days| - 1];
      AllBlocksMember(init, winStart, winEnd, b);
      assert days == init + [days[|days| - 1]];
      if b.day == days[|days| - 1] && b.idx < NumBlocks(winStart, winEnd) &&
         b.start == winStart + BlockMinutes * b.idx && b.end == b.start + BlockMinutes {
        assert DayBlocks(b.day, winStart, winEnd)[b.idx] == b;
      }
    }
  }

  /** No two blocks share a day and an index. */
  predicate UniqueSlots(blks: seq<Block>)
  {
    forall i, j :: 0 <= i < j < |blks| ==> blks[i].day != blks[j].day || blks[i].idx != blks[j].idx
  }

  /** With each day listed once, genblocks never repeats a (day, index) pair. */
  lemma {:induction false} AllBlocksUnique(days: seq<Day>, winStart: int, winEnd: int)
    requires NoDup(days)
    ensures UniqueSlots(AllBlocks(days, winStart, winEnd))
  {
    if days != [] {
      var init := days[..|days| - 1];
      var last := days[|days| - 1];
      assert NoDup(init);
      AllBlocksUnique(init, winStart, winEnd);
      var prev := AllBlocks(init, winStart, winEnd);
      var today := DayBlocks(last, winStart, winEnd);
      var all := prev + today;
      assert AllBlocks(days, winStart, winEnd) == all;
      assert last !in init;
      forall i, j | 0 <= i < j < |all| ensures all[i].day != all[j].day || all[i].idx != all[j].idx {
        if j < |prev| {
          assert all[i] == prev[i] && all[j] == prev[j];
        } else if i >= |prev| {
          assert all[i] == today[i - |prev|] && all[j] == today[j - |prev|];
        } else {
          assert all[i] == prev[i] && all[j] == today[j - |prev|];
          AllBlocksMember(init, winStart, winEnd, prev[i]);
        }
      }
    }
  }

  function ToSlot(b: Block): Slot
  {
    Slot(b.idx, b.start, b.end)
  }

  /** The reference definition of day_blocks[d]: the blocks of day d, in order. */
  function SlotsOf(blks: seq<Block>, d: Day): seq<Slot>
  {
    if blks == [] then []
    else SlotsOf(blks[..|blks| - 1], d) + (if blks[|blks| - 1].day == d then [ToSlot(blks[|blks| - 1])] else [])
  }

  /** block_indices: the indices listed in day_blocks[d]. */
  function Indices(slots: seq<Slot>): (r: seq<nat>)
    ensures |r| == |slots|
  {
    seq(|slots|, j requires 0 <= j < |slots| => slots[j].idx)
  }

  /** Building day_blocks: one empty list per day, then each block appended
      to its day's list. */
  method GroupByDay(ds: seq<Day>, blks: seq<Block>) returns (dayBlocks: map<Day, seq<Slot>>)
    requires forall j :: 0 <= j < |blks| ==> blks[j].day in ds
    ensures dayBlocks.Keys == set d | d in ds
    ensures forall d :: d in ds ==> dayBlocks[d] == SlotsOf(blks, d)
  {
    dayBlocks := map d | d in ds :: [];
    for j := 0 to |blks|
      invariant dayBlocks.Keys == set d | d in ds
      invariant forall d :: d in ds ==> dayBlocks[d] == SlotsOf(blks[..j], d)
    {
      assert blks[..j + 1][..j] == blks[..j];
      var b := blks[j];
      dayBlocks := dayBlocks[b.day := dayBlocks[b.day] + [Slot(b.idx, b.start, b.end)]];
    }
    assert blks[..|blks|] == blks;
  }

  lemma {:induction false} SlotsOfAppend(a: seq<Block>, b: seq<Block>, d: Day)
    ensures SlotsOf(a + b, d) == SlotsOf(a, d) + SlotsOf(b, d)
  {
    if b == [] {
      assert a + b == a;
    } else {
      assert (a + b)[..|a + b| - 1] == a + b[..|b| - 1];
      SlotsOfAppend(a, b[..|b| - 1], d);
    }
  }

  lemma {:induction false} SlotsOfOtherDay(b: seq<Block>, d: Day)
    requires forall j :: 0 <= j < |b| ==> b[j].day != d
    ensures SlotsOf(b, d) == []
  {
    if b != [] {
      SlotsOfOtherDay(b[..|b| - 1], d);
    }
  }

  lemma {:induction false} SlotsOfSameDay(b: seq<Block>, d: Day)
    requires forall j :: 0 <= j < |b| ==> b[j].day == d
    ensures SlotsOf(b, d) == seq(|b|, j requires 0 <= j < |b| => ToSlot(b[j]))
  {
    if b != [] {
      SlotsOfSameDay(b[..|b| - 1], d);
    }
  }

  /** The reference definition of one day's slots, as day_blocks holds them. */
  function DaySlots(winStart: int, winEnd: int): seq<Slot>
  {
    seq(NumBlocks(winStart, winEnd), i requires 0 <= i =>
      Slot(i, winStart + BlockMinutes * i, winStart + BlockMinutes * i + BlockMinutes))
  }

  /** The slots of one day's own blocks are the reference day of slots; other
      days get none of them. */
  lemma DayBlocksSlots(d: Day, e: Day, winStart: int, winEnd: int)
    ensures SlotsOf(DayBlocks(e, winStart, winEnd), d) == if d == e then DaySlots(winStart, winEnd) else []
  {
    var today := DayBlocks(e, winStart, winEnd);
    if d == e {
      SlotsOfSameDay(today, d);
      assert seq(|today|, j requires 0 <= j < |today| => ToSlot(today[j])) == DaySlots(winStart, winEnd);
    } else {
      SlotsOfOtherDay(today, d);
    }
  }

  /** day_blocks[d] of the generated blocks is the reference day of slots, so
      that block_indices is exactly 0..n-1 for every listed day. */
  lemma {:induction false} SlotsOfAllBlocks(days: seq<Day>, winStart: int, winEnd: int, d: Day)
    requires NoDup(days)
    ensures d in days ==> SlotsOf(AllBlocks(days, winStart, winEnd), d) == DaySlots(winStart, winEnd)
    ensures d !in days ==> SlotsOf(AllBlocks(days, winStart, winEnd), d) == []
  {
    if days != [] {
      var init := days[..|days| - 1];
      var last := days[|days| - 1];
      NoDupSnoc(days);
      assert days == init + [last];
      SlotsOfAllBlocks(init, winStart, winEnd, d);
      SlotsOfAppend(AllBlocks(init, winStart, winEnd), DayBlocks(last, winStart, winEnd), d);
      var prev := AllBlocks(init, winStart, winEnd);
      var today := DayBlocks(last, winStart, winEnd);
      assert AllBlocks(days, winStart, winEnd) == prev + today;
      DayBlocksSlots(d, last, winStart, winEnd);
      if last == d {
        assert SlotsOf(prev, d) == [];
      } else {
        assert (d in days) == (d in init);
      }
    }
  }

  lemma DaySlotsIndices(winStart: int, winEnd: int)
    ensures Indices(DaySlots(winStart, winEnd)) == Range(NumBlocks(winStart, winEnd))
  {
  }
}
