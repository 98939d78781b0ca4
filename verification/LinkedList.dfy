/**
 The doubly linked list: relinking `prev`, `next`, `head` and `tail` in place refines the same
 operations on a sequence.
 */
module LinkedList {

  class Item<T> {
    var data: T
    var prev: Item?<T>
    var next: Item?<T>

    constructor (v: T)
      ensures data == v && prev == null && next == null
    {
      data, prev, next := v, null, null;
    }
  }

  predicate Distinct<T(!new)>(items: seq<Item<T>>) {
    forall i, j :: 0 <= i < j < |items| ==> items[i] != items[j]
  }

  // The fields of all items, in order.
  ghost function Nexts<T>(items: seq<Item<T>>): (r: seq<Item?<T>>)
    reads items
    ensures |r| == |items|
  {
    seq(|items|, i requires 0 <= i < |items| reads items => items[i].next)
  }

  ghost function Prevs<T>(items: seq<Item<T>>): (r: seq<Item?<T>>)
    reads items
    ensures |r| == |items|
  {
    seq(|items|, i requires 0 <= i < |items| reads items => items[i].prev)
  }

  ghost function Data<T>(items: seq<Item<T>>): (r: seq<T>)
    reads items
    ensures |r| == |items|
  {
    seq(|items|, i requires 0 <= i < |items| reads items => items[i].data)
  }

  // What `next` and `prev` have to be: the neighbours, and null at the ends.
  function After<T>(items: seq<Item<T>>): (r: seq<Item?<T>>)
    ensures |r| == |items|
  {
    seq(|items|, i requires 0 <= i < |items| => if i + 1 < |items| then items[i + 1] else null)
  }

  function Before<T>(items: seq<Item<T>>): (r: seq<Item?<T>>)
    ensures |r| == |items|
  {
    seq(|items|, i requires 0 <= i < |items| => if i > 0 then items[i - 1] else null)
  }

  function Inserted<T>(s: seq<T>, k: nat, x: T): (r: seq<T>)
    requires k <= |s|
    ensures |r| == |s| + 1
  {
    s[..k] + [x] + s[k..]
  }

  function Erased<T>(s: seq<T>, k: nat): (r: seq<T>)
    requires k < |s|
    ensures |r| == |s| - 1
  {
    s[..k] + s[k + 1..]
  }

  // ----- Neighbours after a change -----

  // s with position i replaced, if there is such a position.
  function Put<T>(s: seq<T>, i: int, x: T): (r: seq<T>)
    ensures |r| == |s|
  {
    if 0 <= i < |s| then s[i := x] else s
  }

  lemma InsertedIndex<T>(s: seq<T>, k: nat, x: T, i: nat)
    requires k <= |s| && i <= |s|
    ensures Inserted(s, k, x)[i] == if i < k then s[i] else if i == k then x else s[i - 1]
  {
  }

  lemma ErasedIndex<T>(s: seq<T>, k: nat, i: nat)
    requires k < |s| && i + 1 < |s|
    ensures Erased(s, k)[i] == if i < k then s[i] else s[i + 1]
  {
  }

  lemma InsertedLinks<T>(items: seq<Item<T>>, k: nat, x: Item<T>)
    requires k <= |items|
    ensures After(Inserted(items, k, x)) == Inserted(Put(After(items), k - 1, x), k, if k < |items| then items[k]
            else null)
    ensures Before(Inserted(items, k, x)) == Inserted(Put(Before(items), k, x), k, if k > 0 then items[k - 1] else null)
  {
    var more := Inserted(items, k, x);
    var next, prev: Item?<T> := if k < |items| then items[k] else null, if k > 0 then items[k - 1] else null;
    var nexts, prevs := Inserted(Put(After(items), k - 1, x), k, next), Inserted(Put(Before(items), k, x), k, prev);
    hide Inserted;
    forall i | 0 <= i < |more| ensures After(more)[i] == nexts[i] && Before(more)[i] == prevs[i] {
      InsertedIndex(Put(After(items), k - 1, x), k, next, i);
      InsertedIndex(Put(Before(items), k, x), k, prev, i);
      if i + 1 < |more| { InsertedIndex(items, k, x, i + 1); }
      if i > 0 { InsertedIndex(items, k, x, i - 1); }
    }
  }

  lemma ErasedLinks<T>(items: seq<Item<T>>, k: nat)
    requires k < |items|
    ensures After(Erased(items, k)) == Erased(Put(After(items), k - 1, After(items)[k]), k)
    ensures Before(Erased(items, k)) == Erased(Put(Before(items), k + 1, Before(items)[k]), k)
  {
    var less := Erased(items, k);
    var nexts, prevs := Erased(Put(After(items), k - 1, After(items)[k]), k),
        Erased(Put(Before(items), k + 1, Before(items)[k]), k);
    hide Erased;
    forall i | 0 <= i < |less| ensures After(less)[i] == nexts[i] && Before(less)[i] == prevs[i] {
      ErasedIndex(Put(After(items), k - 1, After(items)[k]), k, i);
      ErasedIndex(Put(Before(items), k + 1, Before(items)[k]), k, i);
      if i + 1 < |less| { ErasedIndex(items, k, i + 1); }
      if i > 0 { ErasedIndex(items, k, i - 1); }
    }
  }

  class List<T(!new)> {
    var head: Item?<T>
    var tail: Item?<T>
    var size: nat
    ghost var items: seq<Item<T>>

    ghost predicate Valid()
      reads this, items
    {
      && size == |items| && Distinct(items) && Nexts(items) == After(items) && Prevs(items) == Before(items)
      && head == (if items == [] then null else items[0])
      && tail == (if items == [] then null else items[|items| - 1])
    }

    ghost function Contents(): seq<T>
      reads this, items
    {
      Data(items)
    }

    constructor ()
      ensures Valid() && Contents() == [] && items == []
    {
      head, tail, size, items := null, null, 0, [];
    }

    // Sets one link of the item at position k.
    method SetNext(at: Item<T>, to: Item?<T>, ghost k: nat)
      requires k < |items| && items[k] == at && Distinct(items)
      modifies at`next
      ensures Nexts(items) == old(Nexts(items))[k := to] && Prevs(items) == old(Prevs(items))
      ensures Data(items) == old(Data(items))
    {
      at.next := to;
    }

    method SetPrev(at: Item<T>, to: Item?<T>, ghost k: nat)
      requires k < |items| && items[k] == at && Distinct(items)
      modifies at`prev
      ensures Prevs(items) == old(Prevs(items))[k := to] && Nexts(items) == old(Nexts(items))
      ensures Data(items) == old(Data(items))
    {
      at.prev := to;
    }

    // A new item takes its place in the ghost sequence.
    ghost method Place(item: Item<T>, k: nat)
      requires k <= |items| && item !in items && Distinct(items)
      modifies this`items
      ensures items == Inserted(old(items), k, item) && Distinct(items)
      ensures Nexts(items) == Inserted(old(Nexts(items)), k, item.next)
      ensures Prevs(items) == Inserted(old(Prevs(items)), k, item.prev)
      ensures Data(items) == Inserted(old(Data(items)), k, item.data)
    {
      items := items[..k] + [item] + items[k..];
    }

    ghost method Unplace(k: nat)
      requires k < |items| && Distinct(items)
      modifies this`items
      ensures items == Erased(old(items), k) && Distinct(items)
      ensures Nexts(items) == Erased(old(Nexts(items)), k) && Prevs(items) == Erased(old(Prevs(items)), k)
      ensures Data(items) == Erased(old(Data(items)), k)
    {
      items := items[..k] + items[k + 1..];
    }

    method Push(v: T)
      requires Valid()
      modifies this, items
      ensures Valid() && Contents() == Inserted(old(Contents()), |old(items)|, v)
      ensures |items| == |old(items)| + 1 && items[..|old(items)|] == old(items) && fresh(items[|old(items)|])
    {
      hide Distinct, After, Before, Nexts, Prevs, Data;
      var item := new Item(v);
      InsertedLinks(items, |items|, item);
      if head == null {
        head := item;
        tail := item;
      } else {
        SetNext(tail, item, |items| - 1);
        item.prev := tail;
        tail := item;
      }
      size := size + 1;
      Place(item, |items|);
    }

    method PushFront(v: T)
      requires Valid()
      modifies this, items
      ensures Valid() && Contents() == Inserted(old(Contents()), 0, v)
      ensures |items| == |old(items)| + 1 && items[1..] == old(items) && fresh(items[0])
    {
      hide Distinct, After, Before, Nexts, Prevs, Data;
      var item := new Item(v);
      InsertedLinks(items, 0, item);
      if head == null {
        head := item;
        tail := item;
      } else {
        SetPrev(head, item, 0);
        item.next := head;
        head := item;
      }
      size := size + 1;
      Place(item, 0);
    }

    // The links of a new item and of its two neighbours.
    method LinkBefore(at: Item<T>, item: Item<T>, ghost k: nat)
      requires k < |items| && items[k] == at && Distinct(items) && item !in items
      requires if k > 0 then at.prev == items[k - 1] != at else at.prev == null
      modifies item`next, item`prev, items`next, items`prev
      ensures item.next == at && item.prev == old(at.prev)
      ensures Nexts(items) == Put(old(Nexts(items)), k - 1, item)
      ensures Prevs(items) == Put(old(Prevs(items)), k, item) && Data(items) == old(Data(items))
    {
      hide Distinct;
      item.next := at;
      item.prev := at.prev;
      if at.prev != null {
        SetNext(at.prev, item, k - 1);
      }
      SetPrev(at, item, k);
    }

    // Before the item that lies at position k.
    method Insert(at: Item<T>, v: T, ghost k: nat) returns (item: Item<T>)
      requires Valid() && k < |items| && items[k] == at
      modifies this, items
      ensures Valid() && Contents() == Inserted(old(Contents()), k, v)
      ensures fresh(item) && items == Inserted(old(items), k, item)
    {
      hide Distinct, After, Before, Nexts, Prevs, Data, Inserted, Put;
      item := new Item(v);
      InsertedLinks(items, k, item);
      InsertedIndex(items, k, item, 0);
      InsertedIndex(items, k, item, |items|);
      Neighbours(k);
      LinkBefore(at, item, k);
      if head == at {
        head := item;
      }
      size := size + 1;
      Place(item, k);
    }

    // The links of the item at position k.
    lemma Neighbours(k: nat)
      requires Valid() && k < |items|
      ensures items[k].prev == (if k > 0 then items[k - 1] else null)
      ensures items[k].next == (if k + 1 < |items| then items[k + 1] else null)
      ensures items[k].prev == Before(items)[k] && items[k].next == After(items)[k]
      ensures (k > 0 ==> items[k - 1] != items[k]) && (k + 1 < |items| ==> items[k + 1] != items[k])
      ensures (head == items[k] <==> k == 0) && (tail == items[k] <==> k == |items| - 1)
    {
      assert Prevs(items)[k] == Before(items)[k] && Nexts(items)[k] == After(items)[k];
    }

    // Takes out the item at position k and gives the one after it.
    method Erase(at: Item<T>, ghost k: nat) returns (next: Item?<T>)
      requires Valid() && k < |items| && items[k] == at
      modifies this, items
      ensures Valid() && Contents() == Erased(old(Contents()), k) && items == Erased(old(items), k)
      ensures next == if k < |items| then items[k] else null
    {
      hide Distinct, After, Before, Nexts, Prevs, Data, Erased;
      ErasedLinks(items, k);
      Neighbours(k);
      EndsErased(items, k);
      if at.prev != null {
        SetNext(at.prev, at.next, k - 1);
      }
      if at.next != null {
        SetPrev(at.next, at.prev, k + 1);
      }
      if head == at {
        head := at.next;
      }
      if tail == at {
        tail := at.prev;
      }
      size := size - 1;
      next := at.next;
      Unplace(k);
    }

    method Pop()
      requires Valid() && size > 0
      modifies this, items
      ensures Valid() && Contents() == Erased(old(Contents()), |old(items)| - 1)
      ensures items == Erased(old(items), |old(items)| - 1)
    {
      hide Distinct, After, Before, Nexts, Prevs, Data, Erased;
      ghost var k := |items| - 1;
      ErasedLinks(items, k);
      Neighbours(k);
      EndsErased(items, k);
      if size == 1 {
        head, tail, size := null, null, 0;
        Unplace(k);
        return;
      }
      tail := tail.prev;
      SetNext(tail, null, k - 1);
      size := size - 1;
      Unplace(k);
    }

    method PopFront()
      requires Valid() && size > 0
      modifies this, items
      ensures Valid() && Contents() == Erased(old(Contents()), 0) && items == Erased(old(items), 0)
    {
      hide Distinct, After, Before, Nexts, Prevs, Data, Erased;
      ErasedLinks(items, 0);
      Neighbours(0);
      EndsErased(items, 0);
      if size == 1 {
        head, tail, size := null, null, 0;
        Unplace(0);
        return;
      }
      head := head.next;
      SetPrev(head, null, 1);
      size := size - 1;
      Unplace(0);
    }

    method Clear()
      requires Valid()
      modifies this
      ensures Valid() && Contents() == [] && items == []
    {
      ghost var k := 0;
      while head != null
        invariant k <= |items| && items == old(items) && head == if k < |items| then items[k] else null
        decreases |items| - k
      {
        assert Nexts(items)[k] == After(items)[k];
        head := head.next;
        k := k + 1;
      }
      head, tail, size, items := null, null, 0, [];
    }
  }

  // The ends of what is left.
  lemma EndsErased<T>(items: seq<Item<T>>, k: nat)
    requires k < |items|
    ensures var less := Erased(items, k);
            && (less == [] <==> |items| == 1)
            && (less != [] ==> less[0] == (if k == 0 then items[1] else items[0]))
            && (less != [] ==> less[|less| - 1] == (if k == |less| then items[|less| - 1] else items[|less|]))
            && (k < |less| ==> less[k] == items[k + 1])
  {
  }
}
