/** The circular list of include/list.h: a head and its elements are linked in both directions. */
module IntrusiveList {
  import opened Sequences

  class Node {
    var next: Node?
    var prev: Node?

    constructor ()
      ensures next == prev == null
    {
      next, prev := null, null;
    }
  }

  /** The element at a position; on both sides of the elements there is the head. */
  function Nth(head: Node, s: seq<Node>, i: int): Node {
    if 0 <= i < |s| then s[i] else head
  }

  /** The list of this head has these elements. */
  ghost predicate Ring(head: Node, s: seq<Node>)
    reads head, s
  {
    && head !in s && Distinct(s)
    && head.next == Nth(head, s, 0) && head.prev == Nth(head, s, |s| - 1)
    && (forall i {:trigger s[i].next} :: 0 <= i < |s| ==> s[i].next == Nth(head, s, i + 1))
    && (forall i {:trigger s[i].prev} :: 0 <= i < |s| ==> s[i].prev == Nth(head, s, i - 1))
  }

  /** INIT_LIST_HEAD. */
  method InitHead(head: Node)
    modifies head
    ensures Ring(head, [])
  {
    head.next, head.prev := head, head;
  }

  /** Element i of the list without element k, and its neighbours, in the list with it. */
  lemma NeighboursWithout(head: Node, s: seq<Node>, k: nat, i: nat, j: nat)
    requires Distinct(s) && head !in s && k < |s| && i < |s| - 1 && j == if i < k then i else i + 1
    ensures Without(s, k)[i] == s[j] != s[k]
    ensures Nth(head, Without(s, k), i + 1) == if j + 1 == k then Nth(head, s, k + 1) else Nth(head, s, j + 1)
    ensures Nth(head, Without(s, k), i - 1) == if j - 1 == k then Nth(head, s, k - 1) else Nth(head, s, j - 1)
    ensures (s[j] == Nth(head, s, k - 1) <==> j == k - 1) && (s[j] == Nth(head, s, k + 1) <==> j == k + 1)
  {
  }

  lemma EndsWithout(head: Node, s: seq<Node>, k: nat)
    requires Distinct(s) && head !in s && k < |s|
    ensures Distinct(Without(s, k)) && head !in Without(s, k)
    ensures Nth(head, Without(s, k), 0) == if k == 0 then Nth(head, s, 1) else Nth(head, s, 0)
    ensures Nth(head, Without(s, k), |s| - 2) == if k == |s| - 1 then Nth(head, s, k - 1) else Nth(head, s, |s| - 1)
  {
  }

  /** Element k is bypassed: its neighbours are linked to each other. */
  ghost predicate Bypassed(head: Node, s: seq<Node>, k: int)
    reads head, s
  {
    && head !in s && Distinct(s)
    && head.next == Nth(head, s, if k == 0 then 1 else 0)
    && head.prev == Nth(head, s, if k == |s| - 1 then k - 1 else |s| - 1)
    && (forall i {:trigger s[i].next} :: 0 <= i < |s| ==>
          s[i].next == Nth(head, s, if i == k - 1 then k + 1 else i + 1))
    && (forall i {:trigger s[i].prev} :: 0 <= i < |s| ==>
          s[i].prev == Nth(head, s, if i == k + 1 then k - 1 else i - 1))
  }

  lemma RingWithout(head: Node, s: seq<Node>, k: nat)
    requires Bypassed(head, s, k) && k < |s|
    ensures Ring(head, Without(s, k))
  {
    EndsWithout(head, s, k);
    var t := Without(s, k);
    forall i | 0 <= i < |t| ensures t[i].next == Nth(head, t, i + 1) && t[i].prev == Nth(head, t, i - 1) {
      NeighboursWithout(head, s, k, i, if i < k then i else i + 1);
    }
  }

  /** __list_del: the neighbours of element k are linked to each other. */
  method Unlink(prev: Node, next: Node, ghost head: Node, ghost s: seq<Node>, ghost k: nat)
    requires Ring(head, s) && k < |s| && prev == Nth(head, s, k - 1) && next == Nth(head, s, k + 1)
    modifies head, s
    ensures Ring(head, Without(s, k))
  {
    next.prev := prev;
    prev.next := next;
    RingWithout(head, s, k);
  }

  /** list_del. */
  method Delete(elem: Node, ghost head: Node, ghost s: seq<Node>, ghost k: nat)
    requires Ring(head, s) && k < |s| && s[k] == elem
    modifies head, s
    ensures Ring(head, Without(s, k))
  {
    assert elem.next == Nth(head, s, k + 1) && elem.prev == Nth(head, s, k - 1);
    Unlink(elem.prev, elem.next, head, s, k);
  }

  /** list_add. */
  method Add(elem: Node, head: Node, ghost s: seq<Node>)
    requires Ring(head, s) && elem != head && elem !in s
    modifies head, s, elem
    ensures Ring(head, [elem] + s)
  {
    assert head.next == Nth(head, s, 0);
    head.next.prev := elem;
    elem.next := head.next;
    elem.prev := head;
    head.next := elem;
    ghost var t := [elem] + s;
    forall i | 0 <= i < |t| ensures t[i].next == Nth(head, t, i + 1) && t[i].prev == Nth(head, t, i - 1) {
      assert i > 0 ==> t[i] == s[i - 1];
    }
  }

  /** list_add_tail. */
  method AddTail(elem: Node, head: Node, ghost s: seq<Node>)
    requires Ring(head, s) && elem != head && elem !in s
    modifies head, s, elem
    ensures Ring(head, s + [elem])
  {
    assert head.prev == Nth(head, s, |s| - 1);
    head.prev.next := elem;
    elem.next := head;
    elem.prev := head.prev;
    head.prev := elem;
    ghost var t := s + [elem];
    forall i | 0 <= i < |t| ensures t[i].next == Nth(head, t, i + 1) && t[i].prev == Nth(head, t, i - 1) {
      if i < |s| {
        assert t[i] == s[i] && (i < |s| - 1 ==> s[i] != s[|s| - 1]);
      }
    }
  }

  /** Two lists without a common element. */
  ghost predicate Apart(a: Node, s: seq<Node>, b: Node, t: seq<Node>) {
    a != b && a !in t && b !in s && forall i, j :: 0 <= i < |s| && 0 <= j < |t| ==> s[i] != t[j]
  }

  lemma MoveApart(a: Node, s: seq<Node>, b: Node, t: seq<Node>, k: nat)
    requires Apart(a, s, b, t) && a !in s && b !in t && Distinct(s) && Distinct(t) && k < |s|
    ensures s[k] != b && s[k] !in t && s[k] != a && s[k] !in Without(s, k)
    ensures Apart(a, Without(s, k), b, t)
    ensures Apart(a, Without(s, k), b, t + [s[k]]) && Apart(a, Without(s, k), b, [s[k]] + t)
  {
    assert s[k] in s;
  }

  /** list_move_tail. */
  method MoveTail(elem: Node, ghost from: Node, ghost s: seq<Node>, ghost k: nat, head: Node, ghost t: seq<Node>)
    requires Ring(from, s) && Ring(head, t) && Apart(from, s, head, t) && k < |s| && s[k] == elem
    modifies from, s, head, t
    ensures Ring(from, Without(s, k)) && Ring(head, t + [elem]) && Apart(from, Without(s, k), head, t + [elem])
  {
    MoveApart(from, s, head, t, k);
    Delete(elem, from, s, k);
    AddTail(elem, head, t);
  }

  /** list_move. */
  method Move(elem: Node, ghost from: Node, ghost s: seq<Node>, ghost k: nat, head: Node, ghost t: seq<Node>)
    requires Ring(from, s) && Ring(head, t) && Apart(from, s, head, t) && k < |s| && s[k] == elem
    modifies from, s, head, t
    ensures Ring(from, Without(s, k)) && Ring(head, [elem] + t) && Apart(from, Without(s, k), head, [elem] + t)
  {
    MoveApart(from, s, head, t, k);
    Delete(elem, from, s, k);
    Add(elem, head, t);
  }
}
