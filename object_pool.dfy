// The pooled-object policy backed by a concurrent bag: Create takes any
// object the bag holds or makes a new one with the factory, Return puts an
// object into the bag, and Dispose disposes the objects in the bag and
// empties it, unless one of the disposals throws. The bag is a multiset; the
// disposals performed are recorded in a second multiset; the factory's new
// object and the objects whose disposal throws are parameters.

module ObjectPools {

  import opened Wrappers

  class ConcurrentBagObjectPolicy<T(==)> {
    /** The objects waiting in the bag. */
    var bag: multiset<T>
    /** Every Dispose call made on a pooled object so far. */
    var disposed: multiset<T>

    constructor()
      ensures bag == multiset{} && disposed == multiset{}
    {
      bag := multiset{};
      disposed := multiset{};
    }

    /** Create: an object taken out of the bag if it holds any, otherwise the
        object the factory makes. */
    method Create(made: T) returns (item: T)
      modifies this
      ensures old(bag) == multiset{} ==> item == made && bag == multiset{}
      ensures old(bag) != multiset{} ==> item in old(bag) && bag == old(bag) - multiset{item}
      ensures disposed == old(disposed)
    {
      if bag == multiset{} {
        return made;
      }
      item :| item in bag;
      bag := bag - multiset{item};
    }

    /** Return: the object joins the bag; the policy always accepts it. */
    method Return(obj: T) returns (accepted: bool)
      modifies this
      ensures accepted
      ensures bag == old(bag) + multiset{obj} && disposed == old(disposed)
    {
      bag := bag + multiset{obj};
      return true;
    }

    /** Dispose: the objects in the bag are disposed one by one, each
        occurrence once, in an order the bag chooses, and then the bag is
        cleared. The objects in throwing are those whose own Dispose throws:
        the first of them reached ends the loop, its exception is the result,
        the objects not reached yet are not disposed, and the bag is not
        cleared. */
    method Dispose(throwing: set<T>) returns (thrown: Option<T>)
      modifies this
      ensures thrown.None? <==> forall x :: x in old(bag) ==> x !in throwing
      ensures thrown.None? ==> disposed == old(disposed) + old(bag) && bag == multiset{}
      ensures thrown.Some? ==> bag == old(bag)
      ensures thrown.Some? ==>
                var attempted := disposed - old(disposed);
                old(disposed) <= disposed && attempted <= old(bag)
                && thrown.value in throwing && thrown.value in attempted
                && forall x :: x in attempted - multiset{thrown.value} ==> x !in throwing
    {
      var remaining := bag;
      while remaining != multiset{}
        invariant remaining <= old(bag) && bag == old(bag)
        invariant disposed == old(disposed) + (old(bag) - remaining)
        invariant forall x :: x in old(bag) - remaining ==> x !in throwing
        decreases |remaining|
      {
        var item :| item in remaining;
        disposed := disposed + multiset{item};
        if item in throwing {
          AttemptedBeforeThrow(old(disposed), old(bag), remaining, item);
          return Some(item);
        }
        remaining := remaining - multiset{item};
      }
      bag := multiset{};
      return None;
    }
  }

  /** The disposals made when the loop reaches item with remaining still to
      go: the ones already done plus item, all taken from the bag. */
  lemma AttemptedBeforeThrow<T>(before: multiset<T>, bag: multiset<T>, remaining: multiset<T>, item: T)
    requires remaining <= bag && item in remaining
    ensures var attempted := before + (bag - remaining) + multiset{item};
            attempted - before == (bag - remaining) + multiset{item}
            && attempted - before <= bag
            && (attempted - before) - multiset{item} == bag - remaining
  {
  }

  /** An object returned to an empty pool is the one the next Create hands
      out, and no new object is made. */
  method ReturnedObjectIsReused<T(==)>(policy: ConcurrentBagObjectPolicy<T>, returned: T, made: T)
    returns (item: T)
    requires policy.bag == multiset{}
    modifies policy
    ensures item == returned && policy.bag == multiset{}
  {
    var accepted := policy.Return(returned);
    item := policy.Create(made);
  }
}
