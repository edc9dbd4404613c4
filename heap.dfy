/** The frontier of the path search: a binary min-heap of (cost, hex) pairs
    stored in a growable array, with the tree laid out level by level. */
module BinaryHeaps {
  import opened Hexes

  /** One frontier entry: its priority and the hex it stands for. */
  datatype Element = Element(cost: int, hex: Hex)

  /** What `Pop` hands back when there is nothing to pop. */
  const EMPTY_POP: Element := Element(-1, NULL_HEX)

  // ---------------------------------------------------------------------
  // Index arithmetic of the array-backed tree

  /** Parent slot of a non-root slot. Only defined for `i > 0`: C's
      `(i - 1) / 2` truncates toward zero, which Dafny's `/` does not. */
  function Parent(i: nat): (p: nat)
    requires 0 < i
    ensures p < i
    ensures 2 * p + 1 <= i <= 2 * p + 2
  {
    (i - 1) / 2
  }

  /** Left child slot: strictly after `i`, and `i` is its parent. */
  function Left(i: nat): (l: nat)
    ensures i < l
    ensures Parent(l) == i
  {
    2 * i + 1
  }

  /** Right child slot: just after the left child, and `i` is its parent. */
  function Right(i: nat): (r: nat)
    ensures i < r && r == Left(i) + 1
    ensures Parent(r) == i
  {
    2 * i + 2
  }

  /** Every non-root slot is a child of its parent, on one side or the other. */
  lemma ChildOfParent(i: nat)
    requires 0 < i
    ensures i == Left(Parent(i)) || i == Right(Parent(i))
  {
  }

  // ---------------------------------------------------------------------
  // Heap order on a sequence of elements

  /** Min-heap order: no element costs less than its parent. */
  ghost predicate IsMinHeap(a: seq<Element>)
  {
    forall i :: 0 < i < |a| ==> a[Parent(i)].cost <= a[i].cost
  }

  /** Heap order while slot `k` is being sifted up: order holds on every edge
      except the one from `k` to its parent, and `k`'s parent is no more
      costly than `k`'s children (so that swapping `k` upward is safe). */
  ghost predicate HeapExceptUp(a: seq<Element>, k: nat)
  {
    k < |a| &&
    (forall i :: 0 < i < |a| && i != k ==> a[Parent(i)].cost <= a[i].cost) &&
    (0 < k ==> forall i :: 0 < i < |a| && Parent(i) == k ==> a[Parent(k)].cost <= a[i].cost)
  }

  /** Heap order while slot `k` is being sifted down: order holds on every
      edge except those from `k` to its children, and `k`'s parent is no
      more costly than `k`'s children. */
  ghost predicate HeapExceptDown(a: seq<Element>, k: nat)
  {
    (forall i :: 0 < i < |a| && Parent(i) != k ==> a[Parent(i)].cost <= a[i].cost) &&
    (0 < k < |a| ==> forall i :: 0 < i < |a| && Parent(i) == k ==> a[Parent(k)].cost <= a[i].cost)
  }

  /** `a` with the elements at `i` and `j` exchanged: a permutation of `a`. */
  function Swapped(a: seq<Element>, i: nat, j: nat): (r: seq<Element>)
    requires i < |a| && j < |a|
    ensures |r| == |a| && r[i] == a[j] && r[j] == a[i]
    ensures forall k :: 0 <= k < |a| && k != i && k != j ==> r[k] == a[k]
    ensures multiset(r) == multiset(a)
  {
    a[i := a[j]][j := a[i]]
  }

  /** The root of a heap costs no more than the element in slot `i`. */
  lemma {:induction false} RootBelow(a: seq<Element>, i: nat)
    requires IsMinHeap(a) && i < |a|
    ensures a[0].cost <= a[i].cost
    decreases i
  {
    if 0 < i {
      RootBelow(a, Parent(i));
    }
  }

  /** The root of a non-empty heap is a cheapest element. */
  lemma RootIsMinimal(a: seq<Element>)
    requires IsMinHeap(a) && 0 < |a|
    ensures forall e :: e in a ==> a[0].cost <= e.cost
  {
    forall i | 0 <= i < |a|
      ensures a[0].cost <= a[i].cost
    {
      RootBelow(a, i);
    }
  }

  /** One step of sift-up keeps the sift-up shape, one level higher. */
  lemma SiftUpStep(a: seq<Element>, k: nat)
    requires HeapExceptUp(a, k) && 0 < k && a[k].cost < a[Parent(k)].cost
    ensures HeapExceptUp(Swapped(a, k, Parent(k)), Parent(k))
  {
    var p := Parent(k);
    var b := Swapped(a, k, p);
    forall i | 0 < i < |b| && i != p
      ensures b[Parent(i)].cost <= b[i].cost
    {
      if i != k && Parent(i) != k && Parent(i) != p {
        assert b[Parent(i)] == a[Parent(i)];
      }
    }
    if 0 < p {
      forall i | 0 < i < |b| && Parent(i) == p
        ensures b[Parent(p)].cost <= b[i].cost
      {
        assert a[Parent(p)].cost <= a[p].cost;
      }
    }
  }

  /** One step of sift-down keeps the sift-down shape, one level lower:
      `s` is the cheaper child of `k` and costs less than `k`. */
  lemma SiftDownStep(a: seq<Element>, k: nat, s: nat)
    requires HeapExceptDown(a, k) && s < |a| && (s == Left(k) || s == Right(k))
    requires a[s].cost < a[k].cost
    requires Left(k) < |a| ==> a[s].cost <= a[Left(k)].cost
    requires Right(k) < |a| ==> a[s].cost <= a[Right(k)].cost
    ensures HeapExceptDown(Swapped(a, k, s), s)
  {
    var b := Swapped(a, k, s);
    forall i | 0 < i < |b| && Parent(i) != s
      ensures b[Parent(i)].cost <= b[i].cost
    {
      if i != k && Parent(i) != k {
        assert b[Parent(i)] == a[Parent(i)];
      } else if Parent(i) == k {
        ChildOfParent(i);
      }
    }
  }

  /** Sift-down is finished when no child of `k` costs less than `k`. */
  lemma SiftDownDone(a: seq<Element>, k: nat)
    requires HeapExceptDown(a, k)
    requires k < |a| && Left(k) < |a| ==> a[k].cost <= a[Left(k)].cost
    requires k < |a| && Right(k) < |a| ==> a[k].cost <= a[Right(k)].cost
    ensures IsMinHeap(a)
  {
    forall i | 0 < i < |a| && Parent(i) == k
      ensures a[k].cost <= a[i].cost
    {
      ChildOfParent(i);
    }
  }

  /** Swapping inside a prefix commutes with taking the prefix. */
  lemma SwappedPrefix(d: seq<Element>, n: nat, i: nat, j: nat)
    requires i < n && j < n && n <= |d|
    ensures Swapped(d, i, j)[..n] == Swapped(d[..n], i, j)
  {
  }

  /** Writing `el` just past a prefix extends the prefix by `el`. */
  lemma AppendedToPrefix(d: seq<Element>, n: nat, el: Element)
    requires n < |d|
    ensures d[n := el][..n + 1] == d[..n] + [el]
  {
  }

  /** An element appended to a heap is the only one that may be out of
      order: the sift-up shape at the new last slot. */
  lemma AppendedBelowHeap(a: seq<Element>, el: Element)
    requires IsMinHeap(a)
    ensures HeapExceptUp(a + [el], |a|)
  {
    var b := a + [el];
    forall i | 0 < i < |b| && i != |a|
      ensures b[Parent(i)].cost <= b[i].cost
    {
      assert b[Parent(i)] == a[Parent(i)] && b[i] == a[i];
    }
  }

  /** `a` with its last element moved into the root slot, replacing it. */
  function LastToRoot(a: seq<Element>): seq<Element>
    requires 0 < |a|
  {
    Swapped(a, 0, |a| - 1)[..|a| - 1]
  }

  /** `after` is `before` with one cheapest element, `head`, taken out. */
  ghost predicate RemovedMinimum(before: seq<Element>, head: Element, after: seq<Element>)
  {
    head in before &&
    (forall x :: x in before ==> head.cost <= x.cost) &&
    multiset(after) == multiset(before) - multiset{head}
  }

  /** Moving the last element of a heap to the root and dropping the old
      root leaves the sift-down shape at the root, and removes a cheapest
      element. */
  lemma RootReplacedByLast(a: seq<Element>)
    requires IsMinHeap(a) && 0 < |a|
    ensures HeapExceptDown(LastToRoot(a), 0) && RemovedMinimum(a, a[0], LastToRoot(a))
  {
    var s := Swapped(a, 0, |a| - 1);
    var b := s[..|a| - 1];
    assert s == b + [a[0]];
    forall i | 0 < i < |b| && Parent(i) != 0
      ensures b[Parent(i)].cost <= b[i].cost
    {
      assert a[Parent(i)].cost <= a[i].cost;
    }
    RootIsMinimal(a);
  }

  /** Removing a minimum is insensitive to the order of what remains. */
  lemma RemovedMinimumPermuted(before: seq<Element>, head: Element, b: seq<Element>, c: seq<Element>)
    requires RemovedMinimum(before, head, b) && multiset(c) == multiset(b)
    ensures RemovedMinimum(before, head, c)
  {
  }

  // ---------------------------------------------------------------------
  // The heap object

  class BinaryHeap {
    var data: array<Element>
    var size: nat
    var capacity: nat
    ghost var Repr: set<object>

    /** The buffer is `capacity` long, non-empty, and holds `size` elements. */
    ghost predicate Valid()
      reads this, Repr
      ensures Valid() ==> this in Repr
    {
      Repr == {this, data} &&
      data.Length == capacity && 0 < capacity && size <= capacity
    }

    /** The elements held, in slot order. */
    ghost function Elements(): seq<Element>
      reads this, Repr
      requires Valid()
    {
      data[..size]
    }

    /** A valid buffer whose elements are in min-heap order. */
    ghost predicate Heap()
      reads this, Repr
    {
      Valid() && IsMinHeap(Elements())
    }

    /** A new, empty heap with room for `capacity` elements. */
    constructor Init(capacity: nat)
      requires 0 < capacity
      ensures Heap() && fresh(Repr)
      ensures Elements() == [] && this.capacity == capacity
    {
      data := new Element[capacity];
      size := 0;
      this.capacity := capacity;
      Repr := {this, data};
    }

    /** Doubles the buffer, keeping every slot of the old one in place. */
    method Resize()
      requires Valid()
      modifies this
      ensures Valid() && fresh(data) && fresh(Repr - old(Repr))
      ensures capacity == 2 * old(capacity) && size == old(size)
      ensures data[..old(capacity)] == old(data[..])
      ensures Elements() == old(Elements())
    {
      var bigger := new Element[2 * capacity];
      forall i | 0 <= i < capacity {
        bigger[i] := data[i];
      }
      data := bigger;
      capacity := 2 * capacity;
      Repr := {this, data};
    }

    /** True exactly when the heap holds no element. */
    function IsEmpty(): (r: bool)
      reads this, Repr
      requires Valid()
      ensures r <==> Elements() == []
    {
      size == 0
    }

    /** The priority stored in slot `idx`. */
    function Cost(idx: nat): (c: int)
      reads this, Repr
      requires Valid() && idx < size
      ensures c == Elements()[idx].cost
    {
      data[idx].cost
    }

    /** Exchanges the elements in two slots of the buffer. */
    method Swap(i: nat, j: nat)
      requires Valid() && i < capacity && j < capacity
      modifies data
      ensures Valid() && data[..] == Swapped(old(data[..]), i, j)
    {
      data[i], data[j] := data[j], data[i];
    }

    /** Moves the element in slot `idx` up while it costs less than its parent. */
    method HeapifyUp(idx: nat)
      requires Valid() && HeapExceptUp(Elements(), idx)
      modifies data
      ensures Heap()
      ensures multiset(Elements()) == multiset(old(Elements()))
      decreases idx
    {
      if 0 < idx {
        var p := Parent(idx);
        if Cost(p) > Cost(idx) {
          SiftUpStep(Elements(), idx);
          SwappedPrefix(data[..], size, idx, p);
          Swap(idx, p);
          HeapifyUp(p);
        }
      }
    }

    /** Moves the element in slot `idx` down, swapping it with its cheaper
        child, while some child costs less than it. */
    method HeapifyDown(idx: nat)
      requires Valid() && HeapExceptDown(Elements(), idx)
      modifies data
      ensures Heap()
      ensures multiset(Elements()) == multiset(old(Elements()))
      decreases size - idx
    {
      var smallest := idx;
      var l := Left(idx);
      var r := Right(idx);
      if l < size && Cost(l) < Cost(smallest) {
        smallest := l;
      }
      if r < size && Cost(r) < Cost(smallest) {
        smallest := r;
      }
      if smallest != idx {
        SiftDownStep(Elements(), idx, smallest);
        SwappedPrefix(data[..], size, idx, smallest);
        Swap(idx, smallest);
        HeapifyDown(smallest);
      } else {
        SiftDownDone(Elements(), idx);
      }
    }

    /** Adds `el`, growing the buffer first when it is full. */
    method Insert(el: Element)
      requires Heap()
      modifies Repr
      ensures Heap() && fresh(Repr - old(Repr))
      ensures size == old(size) + 1
      ensures multiset(Elements()) == multiset(old(Elements())) + multiset{el}
      ensures capacity == if old(size) == old(capacity) then 2 * old(capacity) else old(capacity)
    {
      if size == capacity {
        Resize();
      }
      ghost var d := data[..];
      AppendedToPrefix(d, size, el);
      AppendedBelowHeap(Elements(), el);
      data[size] := el;
      size := size + 1;
      HeapifyUp(size - 1);
    }

    /** The root: a cheapest element of a non-empty heap. */
    function Peek(): (e: Element)
      reads this, Repr
      requires Heap() && 0 < size
      ensures e == Elements()[0]
      ensures forall x :: x in Elements() ==> e.cost <= x.cost
    {
      RootIsMinimal(Elements());
      data[0]
    }

    /** Removes and returns a cheapest element; on an empty heap returns
        `EMPTY_POP` and changes nothing. */
    method Pop() returns (head: Element)
      requires Heap()
      modifies Repr
      ensures Heap() && data == old(data) && capacity == old(capacity)
      ensures old(size) == 0 ==> head == EMPTY_POP && size == 0 && data[..] == old(data[..])
      ensures old(size) > 0 ==> RemovedMinimum(old(Elements()), head, Elements())
    {
      if size == 0 {
        return EMPTY_POP;
      }
      head := Peek();
      RootReplacedByLast(Elements());
      MoveLastToRoot();
      ghost var shrunk := Elements();
      HeapifyDown(0);
      RemovedMinimumPermuted(old(Elements()), head, shrunk, Elements());
    }

    /** The first half of a pop: the last element is swapped into the root
        and the heap shrinks by one, dropping the old root. */
    method MoveLastToRoot()
      requires Valid() && 0 < size
      modifies this, data
      ensures Valid() && data == old(data) && capacity == old(capacity)
      ensures Elements() == LastToRoot(old(Elements()))
    {
      SwappedPrefix(data[..], size, 0, size - 1);
      size := size - 1;
      Swap(0, size);
    }
  }
}
