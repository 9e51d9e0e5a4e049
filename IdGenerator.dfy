/**
  * The sequential request-id generator: one integer counter, seeded at
  * construction (1 by default); every call returns the counter's decimal
  * text and then advances the counter by one.
  */
module IdGenerators {
  import Decimal

  /** The ids `count` calls return on a generator seeded with `first`, in call order. */
  function IdsFrom(first: int, count: nat): (ids: seq<string>)
    ensures |ids| == count
    ensures forall k :: 0 <= k < count ==> ids[k] == Decimal.IntToString(first + k)
  {
    if count == 0 then [] else IdsFrom(first, count - 1) + [Decimal.IntToString(first + count - 1)]
  }

  /** The ids one generator hands out are pairwise distinct. */
  lemma IdsFromDistinct(first: int, count: nat)
    ensures forall j, l :: 0 <= j < l < count ==> IdsFrom(first, count)[j] != IdsFrom(first, count)[l]
  {
    var ids := IdsFrom(first, count);
    forall j, l | 0 <= j < l < count
      ensures ids[j] != ids[l]
    {
      if ids[j] == ids[l] {
        Decimal.IntToStringInjective(first + j, first + l);
      }
    }
  }

  class SequentialIdGenerator {
    /** The counter the next call renders. */
    var nextId: int
    /** The seed given to the constructor. */
    ghost const firstId: int
    /** Every id returned so far, in call order. */
    ghost var issued: seq<string>

    ghost predicate Valid()
      reads this
    {
      nextId == firstId + |issued| && issued == IdsFrom(firstId, |issued|)
    }

    constructor (firstId: int := 1)
      ensures Valid()
      ensures this.firstId == firstId && nextId == firstId && issued == []
    {
      this.firstId := firstId;
      nextId := firstId;
      issued := [];
    }

    /** Returns the current counter as decimal text, then advances the counter (a post-increment). */
    method GenerateId() returns (id: string)
      requires Valid()
      modifies this
      ensures Valid()
      ensures id == Decimal.IntToString(old(nextId))
      ensures nextId == old(nextId) + 1
      ensures issued == old(issued) + [id]
      ensures id !in old(issued)
    {
      id := Decimal.IntToString(nextId);
      nextId := nextId + 1;
      IdsFromDistinct(firstId, |issued| + 1);
      issued := issued + [id];
      assert issued == IdsFrom(firstId, |issued|);
      assert issued[|issued| - 1] == id;
    }
  }

  /** A generator built with the default seed yields "1", "2", "3". */
  method DefaultSequence() returns (a: string, b: string, c: string)
    ensures a == "1" && b == "2" && c == "3"
  {
    var g := new SequentialIdGenerator();
    a := g.GenerateId();
    b := g.GenerateId();
    c := g.GenerateId();
  }

  /** A generator seeded with 10 yields "10", "11", "12". */
  method CustomSequence() returns (a: string, b: string, c: string)
    ensures a == "10" && b == "11" && c == "12"
  {
    var g := new SequentialIdGenerator(10);
    a := g.GenerateId();
    b := g.GenerateId();
    c := g.GenerateId();
  }
}
