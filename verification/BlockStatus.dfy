/** How a block knows which of its elements are gone: large blocks count them; explicit producers' blocks of up to 32
    elements keep a flag for each. Both forms are proved to say the same, which is why the other modules use the
    count. */
module BlockStatus {
  import opened Collections
  import opened ModArith

  class Block {
    const bs: nat                          // BLOCK_SIZE
    const flagged: bool                    // explicit context and BLOCK_SIZE <= EXPLICIT_BLOCK_EMPTY_COUNTER_THRESHOLD
    const emptyFlags: array<bool>
    var elementsCompletelyDequeued: nat
    ghost var gone: set<nat>               // the positions of the elements marked empty

    /** The flags are kept from the last element to the first. */
    ghost predicate Valid()
      reads this, emptyFlags
    {
      && bs > 0 && emptyFlags.Length == bs && gone <= Below(bs)
      && if flagged then forall p :: 0 <= p < bs ==> (emptyFlags[bs - 1 - p] <==> p in gone)
         else elementsCompletelyDequeued == |gone|
    }

    constructor (bs: nat, flagged: bool)
      requires bs > 0
      ensures Valid() && this.bs == bs && this.flagged == flagged && gone == {} && fresh(emptyFlags)
    {
      this.bs, this.flagged := bs, flagged;
      emptyFlags := new bool[bs](_ => false);
      elementsCompletelyDequeued, gone := 0, {};
    }

    /** is_empty */
    method IsEmpty() returns (r: bool)
      requires Valid()
      ensures r <==> gone == Below(bs)
    {
      if flagged {
        var i := 0;
        while i < bs
          invariant 0 <= i <= bs
          invariant forall p :: bs - i <= p < bs ==> p in gone
        {
          if !emptyFlags[i] {
            assert bs - 1 - i !in gone && bs - 1 - i in Below(bs);
            return false;
          }
          i := i + 1;
        }
        return true;
      }
      SubsetSize(gone, Below(bs));
      return elementsCompletelyDequeued == bs;
    }

    /** set_empty */
    method SetEmpty(i: nat) returns (r: bool)
      requires Valid() && i % bs !in gone
      modifies this`gone, this`elementsCompletelyDequeued, emptyFlags
      ensures Valid() && gone == old(gone) + {i % bs}
      ensures r <==> !flagged && gone == Below(bs)
    {
      var p := i % bs;
      gone := gone + {p};
      if flagged {
        emptyFlags[bs - 1 - p] := true;
        return false;
      }
      elementsCompletelyDequeued := elementsCompletelyDequeued + 1;
      SubsetSize(gone, Below(bs));
      return elementsCompletelyDequeued == bs;
    }

    /** set_many_empty: the elements i, ... i + count - 1 of this block. */
    method SetManyEmpty(i: nat, count: nat) returns (r: bool)
      requires Valid() && count > 0 && i % bs + count <= bs
      requires forall p :: i % bs <= p < i % bs + count ==> p !in gone
      modifies this`gone, this`elementsCompletelyDequeued, emptyFlags
      ensures Valid() && gone == old(gone) + Range(i % bs, i % bs + count)
      ensures r <==> !flagged && gone == Below(bs)
    {
      hide Range;
      ghost var first := i % bs;
      if flagged {
        SetFlags(i % bs, count);
        return false;
      }
      AddedSize(gone, first, first + count, bs);
      gone := gone + Range(first, first + count);
      elementsCompletelyDequeued := elementsCompletelyDequeued + count;
      return elementsCompletelyDequeued == bs;
    }

    method SetFlags(from: nat, count: nat)
      requires Valid() && flagged && from + count <= bs
      requires forall p :: from <= p < from + count ==> p !in gone
      modifies this`gone, emptyFlags
      ensures Valid() && gone == old(gone) + Range(from, from + count)
    {
      var first := bs - 1 - from - count + 1;
      var j := 0;
      while j != count
        invariant 0 <= j <= count && gone == old(gone)
        invariant forall p :: 0 <= p < bs ==> emptyFlags[p] == (old(emptyFlags[p]) || first <= p < first + j)
      {
        emptyFlags[first + j] := true;
        j := j + 1;
      }
      RangeWithin(from, from + count, bs);
      gone := gone + Range(from, from + count);
      forall p | 0 <= p < bs ensures emptyFlags[bs - 1 - p] <==> p in gone {
        assert first <= bs - 1 - p < first + count <==> from <= p < from + count;
      }
    }

    /** set_all_empty */
    method SetAllEmpty()
      requires Valid()
      modifies this`gone, this`elementsCompletelyDequeued, emptyFlags
      ensures Valid() && gone == Below(bs)
    {
      SetAll(true);
      elementsCompletelyDequeued, gone := bs, Below(bs);
    }

    /** reset_empty */
    method ResetEmpty()
      requires Valid()
      modifies this`gone, this`elementsCompletelyDequeued, emptyFlags
      ensures Valid() && gone == {}
    {
      SetAll(false);
      elementsCompletelyDequeued, gone := 0, {};
    }

    method SetAll(value: bool)
      requires emptyFlags.Length == bs
      modifies emptyFlags
      ensures forall p :: 0 <= p < bs ==> emptyFlags[p] == value
    {
      var i := 0;
      while i != bs
        invariant 0 <= i <= bs
        invariant forall p :: 0 <= p < i ==> emptyFlags[p] == value
      {
        emptyFlags[i] := value;
        i := i + 1;
      }
    }
  }

  /** The flags and the count say the same: for a flagged and a counting block in which the same elements are gone, one
      is empty if and only if the other is, and the count is the number of flags set. */
  lemma FlagsCount(flags: Block, counter: Block)
    requires flags.Valid() && counter.Valid() && flags.bs == counter.bs && flags.flagged && !counter.flagged
    requires flags.gone == counter.gone
    ensures counter.elementsCompletelyDequeued == Set(flags.emptyFlags[..])
    ensures (forall p :: 0 <= p < flags.bs ==> flags.emptyFlags[p]) <==>
            counter.elementsCompletelyDequeued == counter.bs
  {
    FlagsSet(flags.emptyFlags[..], flags.gone);
    SubsetSize(flags.gone, Below(flags.bs));
    assert forall p :: 0 <= p < flags.bs ==> (flags.emptyFlags[p] <==> flags.bs - 1 - p in flags.gone);
    if flags.gone == Below(flags.bs) {
      assert forall p :: 0 <= p < flags.bs ==> flags.emptyFlags[p];
    } else if p :| p in Below(flags.bs) && p !in flags.gone {
      assert !flags.emptyFlags[flags.bs - 1 - p];
    }
  }

  /** Marking positions first, ... stop - 1, of which none was marked. */
  lemma AddedSize(gone: set<nat>, first: nat, stop: nat, n: nat)
    requires first < stop <= n && gone <= Below(n) && forall p :: first <= p < stop ==> p !in gone
    ensures var more := gone + Range(first, stop);
            && |more| == |gone| + (stop - first) && more <= Below(n) && (more == Below(n) <==> |more| == n)
  {
    hide Range;
    RangeWithin(first, stop, n);
    assert gone !! Range(first, stop);
    SubsetSize(gone + Range(first, stop), Below(n));
  }

  lemma RangeWithin(first: nat, stop: nat, n: nat)
    requires first <= stop <= n
    ensures |Range(first, stop)| == stop - first && Range(first, stop) <= Below(n)
    ensures forall p :: p in Range(first, stop) <==> first <= p < stop
  {
    RangeSize(first, stop - first);
    forall p ensures p in Range(first, stop) <==> first <= p < stop {
      assert Between(first, p, stop) <==> first <= p < stop;
    }
  }

  /** How many flags are set. */
  function Set(flags: seq<bool>): nat {
    if flags == [] then 0 else (if flags[0] then 1 else 0) + Set(flags[1..])
  }

  lemma {:induction false} FlagsSet(flags: seq<bool>, gone: set<nat>)
    requires gone <= Below(|flags|) && forall p :: 0 <= p < |flags| ==> (flags[|flags| - 1 - p] <==> p in gone)
    ensures Set(flags) == |gone|
  {
    if flags == [] {
      assert gone <= {};
    } else {
      var last := |flags| - 1;
      assert flags[last - last] <==> last in gone;
      forall p | 0 <= p < last ensures flags[1..][last - 1 - p] <==> p in gone - {last} {
        assert flags[1..][last - 1 - p] == flags[last - p];
      }
      FlagsSet(flags[1..], gone - {last});
      assert last in gone ==> gone == (gone - {last}) + {last};
    }
  }
}
