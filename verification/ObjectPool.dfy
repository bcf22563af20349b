/** The object pool: a fixed array of objects, a stack of the free ones and a use bit for each.
    A pointer is modelled by its distance from the start of the storage, so a pointer from
    elsewhere is an index outside it. */
module Pooling {

  datatype Option<+T> = None | Some(value: T)

  /** The pool's bookkeeping as a value, for reasoning about many threads at once. */
  datatype Pool = Pool(stack: seq<nat>, use: seq<bool>, freeCount: int) {

    /** The stack holds exactly the indices whose use bit is clear, once each. */
    ghost predicate Valid() {
      && (forall i | 0 <= i < |stack| :: stack[i] < |use| && !use[stack[i]])
      && (forall x | 0 <= x < |use| :: !use[x] ==> x in stack)
      && (forall i, j | 0 <= i < j < |stack| :: stack[i] != stack[j])
      && freeCount == |stack|
    }

    function Popped(): (Option<nat>, Pool) {
      if stack != [] && Top() < |use| && !use[Top()] then
        (Some(Top()), Pool(stack[..|stack| - 1], use[Top() := true], freeCount - 1))
      else
        (None, this)
    }

    function Top(): nat
      requires stack != []
    {
      stack[|stack| - 1]
    }

    function Pushed(index: int): (bool, Pool) {
      if 0 <= index < |use| && use[index] then
        (true, Pool(stack + [index], use[index := false], freeCount + 1))
      else
        (false, this)
    }
  }

  function Fresh(size: nat): Pool {
    Pool(seq(size, i => i), seq(size, i => false), size)
  }

  lemma FreshValid(size: nat)
    ensures Fresh(size).Valid()
    ensures AllFree(Fresh(size), size)
  {
    forall x | 0 <= x < size ensures x in Fresh(size).stack {
      assert Fresh(size).stack[x] == x;
    }
  }

  /** A pool of `size` objects, none of them out. */
  ghost predicate AllFree(p: Pool, size: nat) {
    && p.freeCount == |p.stack| == |p.use| == size
    && (forall i | 0 <= i < size :: !p.use[i] && p.stack[i] == i)
  }

  /** A pool that is not empty never answers null, and what it hands out was free and is not
      handed out again before it comes back. */
  lemma PopExact(p: Pool)
    requires p.Valid()
    ensures p.Popped().1.Valid()
    ensures p.Popped().0.Some? <==> p.stack != []
    ensures p.Popped().0.Some? <==> exists x :: 0 <= x < |p.use| && !p.use[x]
    ensures var (got, q) := p.Popped();
            match got
            case None => q == p
            case Some(x) => x in p.stack && x !in q.stack && !p.use[x] && q.use == p.use[x := true]
  {
  }

  /** `n` pops one after the other, and what they answer. */
  function Pops(p: Pool, n: nat): (seq<Option<nat>>, Pool) {
    if n == 0 then ([], p)
    else
      var (got, q) := Pops(p, n - 1);
      (got + [q.Popped().0], q.Popped().1)
  }

  /** What `n` pops have taken so far: different free objects, each with its use bit set now. */
  ghost predicate Taken(p: Pool, got: seq<Option<nat>>, q: Pool) {
    && q.Valid() && |q.use| == |p.use| && |q.stack| + |got| == |p.stack|
    && (forall i | 0 <= i < |got| :: got[i].Some? && got[i].value < |p.use| && !p.use[got[i].value] && q.use[got[i].value])
    && (forall i, j | 0 <= i < j < |got| :: got[i] != got[j])
  }

  lemma TakenNext(p: Pool, got: seq<Option<nat>>, q: Pool)
    requires Taken(p, got, q) && q.stack != []
    requires forall x | 0 <= x < |p.use| :: p.use[x] ==> q.use[x]
    ensures Taken(p, got + [q.Popped().0], q.Popped().1)
    ensures forall x | 0 <= x < |p.use| :: p.use[x] ==> q.Popped().1.use[x]
  {
    PopExact(q);
  }

  lemma {:induction false} PopsTake(p: Pool, n: nat)
    requires p.Valid() && n <= |p.stack|
    ensures Taken(p, Pops(p, n).0, Pops(p, n).1)
    ensures forall x | 0 <= x < |p.use| :: p.use[x] ==> Pops(p, n).1.use[x]
    ensures |Pops(p, n).0| == n
  {
    if n > 0 {
      PopsTake(p, n - 1);
      TakenNext(p, Pops(p, n - 1).0, Pops(p, n - 1).1);
    }
  }

  /** Main result on the pool: as many pops in a row succeed as objects are free, each with another
      object, and the next one answers null. */
  lemma ServesAll(p: Pool)
    requires p.Valid()
    ensures var (got, q) := Pops(p, |p.stack|);
            && |got| == |p.stack| == p.freeCount
            && (forall i | 0 <= i < |got| :: got[i].Some? && got[i].value < |p.use| && !p.use[got[i].value])
            && (forall i, j | 0 <= i < j < |got| :: got[i] != got[j])
            && q.Popped().0 == None
  {
    PopsTake(p, |p.stack|);
    PopExact(Pops(p, |p.stack|).1);
  }

  /** A return is taken exactly when the object is out; a second return, or a pointer from
      elsewhere, changes nothing. */
  lemma PushExact(p: Pool, index: int)
    requires p.Valid()
    ensures p.Pushed(index).1.Valid()
    ensures p.Pushed(index).0 <==> 0 <= index < |p.use| && p.use[index]
    ensures p.Pushed(index).0 ==> !p.Pushed(index).1.Pushed(index).0
    ensures !p.Pushed(index).0 ==> p.Pushed(index).1 == p
  {
  }

  /** Taking an object and giving it back restores the pool. */
  lemma PopPushInverse(p: Pool)
    requires p.Valid() && p.Popped().0.Some?
    ensures p.Popped().1.Pushed(p.Popped().0.value) == (true, p)
  {
    var (got, q) := p.Popped();
    assert q.use[got.value := false] == p.use;
    assert q.stack + [got.value] == p.stack;
  }

  /** What was given back last is handed out next: the pool is a stack. */
  lemma PushPopInverse(p: Pool, index: int)
    requires p.Valid() && p.Pushed(index).0
    ensures p.Pushed(index).1.Popped() == (Some(index), p)
  {
    assert (p.stack + [index])[..|p.stack|] == p.stack;
    assert p.use[index := false][index := true] == p.use;
  }

  class ObjectPool {
    var stack: seq<nat>
    var use: array<bool>
    var freeCount: int
    var maxSize: nat

    ghost predicate Valid()
      reads this, use
    {
      maxSize == use.Length && View().Valid()
    }

    ghost function View(): Pool
      reads this, use
    {
      Pool(stack, use[..], freeCount)
    }

    constructor ()
      ensures Valid() && View() == Fresh(0) && fresh(use)
    {
      stack, freeCount, maxSize := [], 0, 0;
      use := new bool[0];
    }

    method InitObjectPool(poolSize: nat)
      requires Valid()
      modifies this, use
      ensures Valid()
      ensures old(maxSize) > 0 ==> View() == old(View()) && use == old(use)
      ensures old(maxSize) == 0 ==> View() == Fresh(poolSize) && fresh(use)
      ensures old(maxSize) == 0 ==> AllFree(View(), poolSize) && maxSize == poolSize
    {
      if 0 < maxSize {
        return;
      }

      maxSize := poolSize;
      freeCount := poolSize;
      use := new bool[poolSize](_ => false);
      stack := [];
      for i := 0 to poolSize
        invariant maxSize == freeCount == poolSize == use.Length && fresh(use)
        invariant stack == seq(i, k => k)
        invariant forall k | 0 <= k < poolSize :: !use[k]
      {
        stack := stack + [i];
      }
      FreshValid(poolSize);
    }

    method Pop() returns (item: Option<nat>)
      requires Valid()
      modifies this, use
      ensures Valid() && use == old(use) && maxSize == old(maxSize)
      ensures (item, View()) == old(View()).Popped()
    {
      ghost var p := View();
      PopExact(p);
      if stack != [] {
        var index := stack[|stack| - 1];
        if 0 <= index < maxSize {
          if !use[index] {
            use[index] := true;
            freeCount := freeCount - 1;
            stack := stack[..|stack| - 1];
            assert View() == p.Popped().1;
            return Some(index);
          }
        }
      }
      return None;
    }

    method Push(item: int) returns (result: bool)
      requires Valid()
      modifies this, use
      ensures Valid() && use == old(use) && maxSize == old(maxSize)
      ensures (result, View()) == old(View()).Pushed(item)
    {
      PushExact(View(), item);
      result := false;
      if 0 > item || item > maxSize - 1 {
        return;
      }

      if 0 <= item < maxSize {
        if use[item] {
          use[item] := false;
          stack := stack + [item];
          freeCount := freeCount + 1;
          result := true;
        }
      }
    }
  }
}
