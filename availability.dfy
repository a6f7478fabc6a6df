/** The free-block test (freeblk): a student's class intervals against one
    candidate block, with half-open overlap. */
module Availability {
  import opened Blocks

  /** One of a student's classes: (day of week, class start, class end). */
  datatype ClassInterval = ClassInterval(day: Day, cs: int, ce: int)

  /** The class takes up part of block [s, e) on day d. Intervals that only
      touch the block (ce == s or cs == e) do not overlap it. */
  predicate Overlaps(c: ClassInterval, d: Day, s: int, e: int)
  {
    c.day == d && c.cs < e && c.ce > s
  }

  /** The reference definition: no class of that day overlaps the block. */
  predicate IsFree(classes: seq<ClassInterval>, d: Day, s: int, e: int)
  {
    forall k :: 0 <= k < |classes| ==> !Overlaps(classes[k], d, s, e)
  }

  /** freeblk: scan the classes and answer false at the first one on day d
      that overlaps the block. */
  method FreeBlk(classes: seq<ClassInterval>, d: Day, s: int, e: int) returns (free: bool)
    ensures free <==> !exists k :: 0 <= k < |classes| && classes[k].day == d && classes[k].cs < e && classes[k].ce > s
  {
    for k := 0 to |classes|
      invariant forall j :: 0 <= j < k ==> !Overlaps(classes[j], d, s, e)
    {
      var c := classes[k];
      if c.day == d {
        if c.cs < e && c.ce > s {
          return false;
        }
      }
    }
    return true;
  }

  /** Adding a class on another day, or one that only touches the block, does
      not change whether the block is free. */
  lemma {:induction false} IrrelevantClass(classes: seq<ClassInterval>, c: ClassInterval, d: Day, s: int, e: int)
    requires c.day != d || c.ce <= s || c.cs >= e
    ensures IsFree(classes + [c], d, s, e) <==> IsFree(classes, d, s, e)
  {
    if IsFree(classes, d, s, e) {
      forall k | 0 <= k < |classes + [c]| ensures !Overlaps((classes + [c])[k], d, s, e) {
        if k < |classes| { assert (classes + [c])[k] == classes[k]; }
      }
    }
    if IsFree(classes + [c], d, s, e) {
      forall k | 0 <= k < |classes| ensures !Overlaps(classes[k], d, s, e) {
        assert (classes + [c])[k] == classes[k];
      }
    }
  }

  /** Being free is a property of the set of classes: their order and their
      repetition do not matter. */
  lemma FreeDependsOnSetOnly(a: seq<ClassInterval>, b: seq<ClassInterval>, d: Day, s: int, e: int)
    requires forall c :: c in a <==> c in b
    ensures IsFree(a, d, s, e) <==> IsFree(b, d, s, e)
  {
    if !IsFree(a, d, s, e) {
      var k :| 0 <= k < |a| && Overlaps(a[k], d, s, e);
      assert a[k] in b;
    }
    if !IsFree(b, d, s, e) {
      var k :| 0 <= k < |b| && Overlaps(b[k], d, s, e);
      assert b[k] in a;
    }
  }
}
