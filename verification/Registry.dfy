/** The create and delete functions that IObject.h generates for a module, run by one thread at a
    time.  The chain of objects starts at `firstObject`; an object's status is its node's value. */
module Registries {
  import opened Chains
  import opened Sequences

  class Registry {
    var firstObject: Node?<int>
    ghost var objects: seq<Node<int>>
    ghost var statuses: seq<int>

    ghost predicate Valid()
      reads this, objects
    {
      Chain(objects, statuses) && firstObject == First(objects)
    }

    constructor ()
      ensures Valid() && objects == []
    {
      firstObject := null;
      objects, statuses := [], [];
    }

    /** `initStatus` is what the module's init function returns.  The new object goes in front. */
    method Create(initStatus: int, haveMemory: bool) returns (handle: Node?<int>)
      requires Valid()
      modifies this
      ensures Valid()
      ensures handle != null <==> haveMemory && initStatus == 0
      ensures handle == null ==> objects == old(objects) && statuses == old(statuses)
      ensures handle != null ==> fresh(handle) && objects == [handle] + old(objects) && statuses == [0] + old(statuses)
    {
      if !haveMemory {
        return null;
      }
      var obj := new Node<int>(0, null);
      obj.value := initStatus;
      if obj.value != 0 {
        return null;
      }
      if firstObject == null {
        firstObject := obj;
        obj.next := null;
      } else {
        obj.next := firstObject;
        firstObject := obj;
      }
      PrependChain(objects, statuses, obj);
      objects, statuses := [obj] + objects, [obj.value] + statuses;
      handle := obj;
    }

    /** The search of delete: the predecessor of `handle` in the chain, or null. */
    method FindBefore(handle: Node<int>) returns (temp: Node?<int>, ghost k: nat)
      requires Valid() && handle != firstObject
      ensures temp == null <==> handle !in objects
      ensures temp != null ==> 0 < k < |objects| && objects[k - 1] == temp && objects[k] == handle
    {
      temp := firstObject;
      k := 1;
      while temp != null
        invariant temp == if k - 1 < |objects| then objects[k - 1] else null
        invariant k >= 1 && forall i :: 0 <= i < k && i < |objects| ==> objects[i] != handle
        decreases |objects| - k
      {
        if temp.next == handle {
          break;
        }
        temp := temp.next;
        k := k + 1;
      }
    }

    /** Takes out the first object. */
    method UnlinkFirst(handle: Node<int>)
      requires Valid() && handle == firstObject
      modifies this
      ensures Valid() && objects == RemoveAt(old(objects), 0) && handle !in objects
      ensures statuses == RemoveAt(old(statuses), 0)
    {
      ChainApart(objects, statuses, 0);
      RemovedGone(objects, 0);
      firstObject := handle.next;
      BypassChain(objects, statuses, 0);
      RemovedEnds(objects, 0);
      objects, statuses := RemoveAt(objects, 0), RemoveAt(statuses, 0);
    }

    /** Takes out the object behind `temp`. */
    method UnlinkAfter(temp: Node<int>, handle: Node<int>, ghost k: nat)
      requires Valid() && 0 < k < |objects| && objects[k - 1] == temp && objects[k] == handle
      modifies this, temp
      ensures Valid() && objects == RemoveAt(old(objects), k) && handle !in objects
      ensures statuses == RemoveAt(old(statuses), k)
    {
      ChainApart(objects, statuses, k - 1);
      assert handle !in RemoveAt(objects, k) by {
        ChainApart(objects, statuses, k);
        RemovedGone(objects, k);
      }
      temp.next := handle.next;
      forall i | 0 <= i < |objects|
        ensures objects[i].next == After(objects, if i + 1 == k then k else i) && objects[i].value == statuses[i]
      {
      }
      BypassChain(objects, statuses, k);
      RemovedEnds(objects, k);
      objects, statuses := RemoveAt(objects, k), RemoveAt(statuses, k);
    }

    /** True is S_SUCCESS and false E_INVALIDARG.  Exactly the object named leaves the chain, and the
        others stay in order; a handle that is not in the chain changes nothing. */
    method Delete(handle: Node?<int>) returns (ok: bool, ghost k: nat)
      requires Valid()
      modifies this, objects
      ensures Valid()
      ensures ok <==> handle != null && handle in old(objects)
      ensures !ok ==> objects == old(objects) && statuses == old(statuses) && unchanged(old(objects))
      ensures ok ==>
                && k < |old(objects)| && old(objects)[k] == handle
                && objects == RemoveAt(old(objects), k) && handle !in objects
                && statuses == RemoveAt(old(statuses), k)
    {
      k := 0;
      if handle == null {
        return false, 0;
      }
      if handle == firstObject {
        UnlinkFirst(handle);
      } else {
        var temp;
        temp, k := FindBefore(handle);
        if temp == null {
          return false, 0;
        }
        UnlinkAfter(temp, handle, k);
      }
      ok := true;
    }
  }
}
