/**
 The doubly linked list of troves, from the largest nominal collateral ratio (NICR) to the
 smallest. As in the contract, the nodes live in a mapping from addresses whose missing
 entries read as an all-zero node, NICRs are not stored but asked for at run time, and
 insertions take two hints that may be good, stale, absent or the moved trove itself.
 */
module SortedTroves {

  import opened Accounts

  const NULL: Address := 0

  datatype Node = Node(present: bool, nextId: Address, prevId: Address)

  const ABSENT := Node(false, NULL, NULL)

  // ----- the abstract list

  function NextAt(list: seq<Address>, k: nat): Address {
    if k < |list| then list[k] else NULL
  }

  function PrevAt(list: seq<Address>, k: nat): Address
    requires k <= |list|
  {
    if k == 0 then NULL else list[k - 1]
  }

  ghost predicate Distinct(list: seq<Address>) {
    NULL !in list && forall i, j | 0 <= i < j < |list| :: list[i] != list[j]
  }

  ghost predicate Sorted(list: seq<Address>, nicr: Address -> nat) {
    forall i, j | 0 <= i < j < |list| :: nicr(list[i]) >= nicr(list[j])
  }

  /** Putting `key` in front of position `k` respects both neighbours. */
  ghost predicate Brackets(list: seq<Address>, nicr: Address -> nat, key: nat, k: int) {
    0 <= k <= |list|
    && (k > 0 ==> nicr(list[k - 1]) >= key)
    && (k < |list| ==> key >= nicr(list[k]))
  }

  /** `prevId` and `nextId` are the neighbours of a bracketing position. */
  ghost predicate IsPosition(list: seq<Address>, nicr: Address -> nat, key: nat, prevId: Address, nextId: Address, k: int) {
    Brackets(list, nicr, key, k) && prevId == PrevAt(list, k) && nextId == NextAt(list, k)
  }

  function InsertAt(list: seq<Address>, k: nat, id: Address): (longer: seq<Address>)
    requires k <= |list|
    ensures |longer| == |list| + 1
    ensures forall i | 0 <= i < |longer| :: longer[i] == if i < k then list[i] else if i == k then id else list[i - 1]
    ensures forall x | x in list :: x in longer
  {
    assert forall i | 0 <= i < |list| :: list[i] == (list[..k] + [id] + list[k..])[if i < k then i else i + 1];
    list[..k] + [id] + list[k..]
  }

  function Without(list: seq<Address>, id: Address): (rest: seq<Address>)
    ensures id !in rest
    ensures forall x | x != id :: x in rest <==> x in list
  {
    if list == [] then []
    else if list[0] == id then Without(list[1..], id)
    else [list[0]] + Without(list[1..], id)
  }

  /** What the ratios read as once `id` stands at `key`. */
  function With(nicr: Address -> nat, id: Address, key: nat): Address -> nat {
    x => if x == id then key else nicr(x)
  }

  lemma {:induction false} WithoutAt(list: seq<Address>, k: nat)
    requires Distinct(list) && k < |list|
    ensures Without(list, list[k]) == list[..k] + list[k + 1..]
  {
    var id := list[k];
    if k == 0 {
      WithoutAbsent(list[1..], id);
    } else {
      assert list[1..][k - 1] == id;
      WithoutAt(list[1..], k - 1);
      assert list[1..][..k - 1] == list[1..k];
      assert list[1..][k..] == list[k + 1..];
      assert [list[0]] + list[1..k] == list[..k];
    }
  }

  lemma {:induction false} WithoutAbsent(list: seq<Address>, id: Address)
    requires id !in list
    ensures Without(list, id) == list
  {
    if list != [] {
      WithoutAbsent(list[1..], id);
    }
  }

  lemma InsertDistinct(list: seq<Address>, k: nat, id: Address)
    requires Distinct(list) && k <= |list| && id != NULL && id !in list
    ensures Distinct(InsertAt(list, k, id))
  {
  }

  lemma InsertThenWithout(list: seq<Address>, k: nat, id: Address)
    requires Distinct(list) && k <= |list| && id != NULL && id !in list
    ensures Without(InsertAt(list, k, id), id) == list
  {
    var longer := InsertAt(list, k, id);
    InsertDistinct(list, k, id);
    WithoutAt(longer, k);
    hide Without, Distinct;
    assert longer[..k] == list[..k] && longer[k + 1..] == list[k..];
    assert list[..k] + list[k..] == list;
  }

  /** Insertion at a bracketing position keeps the order. */
  lemma InsertSorted(list: seq<Address>, nicr: Address -> nat, id: Address, key: nat, k: nat)
    requires Sorted(list, nicr) && Brackets(list, nicr, key, k) && id !in list
    ensures Sorted(InsertAt(list, k, id), With(nicr, id, key))
  {
    var longer, ratio := InsertAt(list, k, id), With(nicr, id, key);
    forall i, j | 0 <= i < j < |longer| ensures ratio(longer[i]) >= ratio(longer[j]) {
      if i == k {
        assert nicr(list[k]) >= nicr(list[j - 1]);
      } else if j == k {
        assert nicr(list[i]) >= nicr(list[k - 1]);
      }
    }
  }

  lemma WithoutDistinct(list: seq<Address>, k: nat)
    requires Distinct(list) && k < |list|
    ensures Distinct(Without(list, list[k]))
  {
    WithoutAt(list, k);
  }

  lemma WithoutSize(list: seq<Address>, id: Address)
    requires Distinct(list) && id in list
    ensures |list| == |Without(list, id)| + 1
  {
    var k :| 0 <= k < |list| && list[k] == id;
    WithoutAt(list, k);
  }

  /** Taking out the first, the last or a middle node moves the ends of the list accordingly. */
  lemma UnlinkEnds(list: seq<Address>, k: nat)
    requires Distinct(list) && k < |list|
    ensures |Without(list, list[k])| == |list| - 1
    ensures NextAt(Without(list, list[k]), 0) == if k == 0 then NextAt(list, 1) else list[0]
    ensures PrevAt(Without(list, list[k]), |list| - 1) == if k + 1 == |list| then PrevAt(list, k) else list[|list| - 1]
  {
    WithoutAt(list, k);
    hide Without, Distinct;
    var rest := list[..k] + list[k + 1..];
    if k + 1 < |list| {
      assert rest[|list| - 2] == list[|list| - 1];
    }
  }

  // ----- the nodes

  function Read(nodes: map<Address, Node>, id: Address): Node {
    if id in nodes then nodes[id] else ABSENT
  }

  ghost function LinksOf(list: seq<Address>, i: nat): Node
    requires i < |list|
  {
    Node(true, NextAt(list, i + 1), PrevAt(list, i))
  }

  /** Every listed node points at its neighbours, and no other node exists. */
  ghost predicate Linked(nodes: map<Address, Node>, list: seq<Address>) {
    (forall i {:trigger LinksOf(list, i)} | 0 <= i < |list| :: Read(nodes, list[i]) == LinksOf(list, i))
    && (forall id | id !in list :: Read(nodes, id) == ABSENT)
  }

  /** The whole representation: `list` is what the pointers spell out in both directions. */
  ghost predicate Represents(head: Address, tail: Address, size: nat, nodes: map<Address, Node>, list: seq<Address>) {
    Distinct(list) && |list| == size && head == NextAt(list, 0) && tail == PrevAt(list, |list|) && Linked(nodes, list)
  }

  /** The writes of an insertion: both neighbours that exist point at the new node. */
  function LinkNodes(nodes: map<Address, Node>, prevId: Address, id: Address, nextId: Address): map<Address, Node> {
    var below := if prevId == NULL then nodes else nodes[prevId := Read(nodes, prevId).(nextId := id)];
    var both := if nextId == NULL then below else below[nextId := Read(below, nextId).(prevId := id)];
    both[id := Node(true, nextId, prevId)]
  }

  /** The writes of a removal: both neighbours that exist point past the node, which is deleted. */
  function UnlinkNodes(nodes: map<Address, Node>, prevId: Address, id: Address, nextId: Address): map<Address, Node> {
    var below := if prevId == NULL then nodes else nodes[prevId := Read(nodes, prevId).(nextId := nextId)];
    var both := if nextId == NULL then below else below[nextId := Read(below, nextId).(prevId := prevId)];
    both - {id}
  }

  lemma ReadLinked(nodes: map<Address, Node>, p: Address, id: Address, n: Address, x: Address)
    requires id != NULL && id != p && id != n && (p != n || p == NULL)
    ensures Read(LinkNodes(nodes, p, id, n), x)
            == if x == id then Node(true, n, p)
               else if x == p && p != NULL then Read(nodes, p).(nextId := id)
               else if x == n && n != NULL then Read(nodes, n).(prevId := id)
               else Read(nodes, x)
  {
  }

  lemma ReadUnlinked(nodes: map<Address, Node>, p: Address, id: Address, n: Address, x: Address)
    requires id != NULL && id != p && id != n && (p != n || p == NULL)
    ensures Read(UnlinkNodes(nodes, p, id, n), x)
            == if x == id then ABSENT
               else if x == p && p != NULL then Read(nodes, p).(nextId := n)
               else if x == n && n != NULL then Read(nodes, n).(prevId := p)
               else Read(nodes, x)
  {
  }

  lemma LinkKeepsLinked(nodes: map<Address, Node>, list: seq<Address>, k: nat, id: Address)
    requires Distinct(list) && Linked(nodes, list) && id != NULL && id !in list && k <= |list|
    ensures Linked(LinkNodes(nodes, PrevAt(list, k), id, NextAt(list, k)), InsertAt(list, k, id))
  {
    var p, n, longer := PrevAt(list, k), NextAt(list, k), InsertAt(list, k, id);
    var after := LinkNodes(nodes, p, id, n);
    forall i | 0 <= i < |longer| ensures Read(after, longer[i]) == LinksOf(longer, i) {
      ReadLinked(nodes, p, id, n, longer[i]);
      if i < k {
        assert Read(nodes, list[i]) == LinksOf(list, i);
        assert longer[i] == p <==> i == k - 1;
      } else if i > k {
        assert Read(nodes, list[i - 1]) == LinksOf(list, i - 1);
        assert longer[i] == n <==> i == k + 1;
      }
    }
    assert longer[k] == id;
    forall x | x !in longer ensures Read(after, x) == ABSENT {
      ReadLinked(nodes, p, id, n, x);
    }
  }

  lemma UnlinkKeepsLinked(nodes: map<Address, Node>, list: seq<Address>, k: nat)
    requires Distinct(list) && Linked(nodes, list) && k < |list|
    ensures Linked(UnlinkNodes(nodes, PrevAt(list, k), list[k], NextAt(list, k + 1)), Without(list, list[k]))
  {
    var p, id, n := PrevAt(list, k), list[k], NextAt(list, k + 1);
    WithoutAt(list, k);
    var shorter := list[..k] + list[k + 1..];
    var after := UnlinkNodes(nodes, p, id, n);
    forall i | 0 <= i < |shorter| ensures Read(after, shorter[i]) == LinksOf(shorter, i) {
      UnlinkedAt(nodes, list, k, i);
    }
    forall x | x !in shorter ensures Read(after, x) == ABSENT {
      ReadUnlinked(nodes, p, id, n, x);
    }
  }

  /** The node at position `i` once the one at position `k` is gone. */
  lemma UnlinkedAt(nodes: map<Address, Node>, list: seq<Address>, k: nat, i: nat)
    requires Distinct(list) && Linked(nodes, list) && k < |list| && i < |list| - 1
    ensures var shorter := list[..k] + list[k + 1..];
            Read(UnlinkNodes(nodes, PrevAt(list, k), list[k], NextAt(list, k + 1)), shorter[i]) == LinksOf(shorter, i)
  {
    var p, id, n, shorter := PrevAt(list, k), list[k], NextAt(list, k + 1), list[..k] + list[k + 1..];
    ReadUnlinked(nodes, p, id, n, shorter[i]);
    hide UnlinkNodes;
    if i < k {
      assert shorter[i] == list[i] && Read(nodes, list[i]) == LinksOf(list, i);
      assert shorter[i] == p <==> i == k - 1;
    } else {
      assert shorter[i] == list[i + 1] && Read(nodes, list[i + 1]) == LinksOf(list, i + 1);
      assert shorter[i] == n <==> i == k;
    }
  }

  class TroveList {
    var head: Address
    var tail: Address
    const maxSize: nat
    var size: nat
    var nodes: map<Address, Node>
    ghost var list: seq<Address>

    ghost predicate Valid()
      reads this
    {
      Represents(head, tail, size, nodes, list) && size <= maxSize
    }

    function Lookup(id: Address): Node
      reads this
    {
      Read(nodes, id)
    }

    constructor (maxSize: nat)
      requires maxSize > 0
      ensures Valid() && list == [] && this.maxSize == maxSize
    {
      head, tail, size, nodes, list := NULL, NULL, 0, map[], [];
      this.maxSize := maxSize;
    }

    predicate Contains(id: Address)
      reads this
    {
      Lookup(id).present
    }

    predicate IsFull()
      reads this
    {
      size == maxSize
    }

    predicate ValidInsertPosition(nicr: Address -> nat, key: nat, prevId: Address, nextId: Address)
      reads this
    {
      if prevId == NULL && nextId == NULL then
        size == 0
      else if prevId == NULL then
        head == nextId && key >= nicr(nextId)
      else if nextId == NULL then
        tail == prevId && key <= nicr(prevId)
      else
        Lookup(prevId).nextId == nextId && nicr(prevId) >= key && key >= nicr(nextId)
    }

    lemma LinksAt(i: nat)
      requires Valid() && i < |list|
      ensures list[i] != NULL && Lookup(list[i]) == LinksOf(list, i)
    {
      assert Read(nodes, list[i]) == LinksOf(list, i);
    }

    lemma ContainsExactly(id: Address)
      requires Valid()
      ensures Contains(id) <==> id in list
    {
      if id in list {
        var i: nat :| i < |list| && list[i] == id;
        LinksAt(i);
      }
    }

    /** The pointer test accepts exactly the pairs that are neighbours of a bracketing position. */
    lemma PositionTest(nicr: Address -> nat, key: nat, prevId: Address, nextId: Address)
      requires Valid()
      ensures ValidInsertPosition(nicr, key, prevId, nextId)
              <==> exists k :: IsPosition(list, nicr, key, prevId, nextId, k)
    {
      if ValidInsertPosition(nicr, key, prevId, nextId) {
        if prevId == NULL {
          assert IsPosition(list, nicr, key, prevId, nextId, 0);
        } else {
          assert prevId in list;
          var i :| 0 <= i < |list| && list[i] == prevId;
          LinksAt(i);
          assert IsPosition(list, nicr, key, prevId, nextId, i + 1);
        }
      }
      if k :| IsPosition(list, nicr, key, prevId, nextId, k) {
        if k > 0 {
          LinksAt(k - 1);
        }
      }
    }

    /** A node whose lower gap does not fit the key has a successor that is still above it. */
    lemma StepDown(nicr: Address -> nat, key: nat, i: nat)
      requires Valid() && i < |list| && nicr(list[i]) >= key
      requires !ValidInsertPosition(nicr, key, list[i], NextAt(list, i + 1))
      ensures i + 1 < |list| && nicr(list[i + 1]) >= key
    {
      LinksAt(i);
    }

    /** A node whose upper gap does not fit the key has a predecessor that is still below it. */
    lemma StepUp(nicr: Address -> nat, key: nat, i: nat)
      requires Valid() && i < |list| && nicr(list[i]) <= key
      requires !ValidInsertPosition(nicr, key, PrevAt(list, i), list[i])
      ensures i > 0 && nicr(list[i - 1]) <= key
    {
      if i > 0 {
        LinksAt(i - 1);
      }
    }

    method DescendList(nicr: Address -> nat, key: nat, startId: Address) returns (prevId: Address, nextId: Address)
      requires Valid()
      requires startId == head || (startId in list && nicr(startId) >= key)
      ensures ValidInsertPosition(nicr, key, prevId, nextId)
    {
      if head == startId && key >= nicr(startId) {
        return NULL, startId;
      }
      prevId := startId;
      nextId := Lookup(prevId).nextId;
      if prevId == NULL {
        return;
      }
      ghost var i: nat :| i < |list| && list[i] == prevId;
      LinksAt(i);
      while prevId != NULL && !ValidInsertPosition(nicr, key, prevId, nextId)
        invariant i < |list| && prevId == list[i] && nextId == NextAt(list, i + 1)
        invariant prevId != NULL && nicr(prevId) >= key
        decreases |list| - i
      {
        StepDown(nicr, key, i);
        LinksAt(i);
        LinksAt(i + 1);
        prevId := Lookup(prevId).nextId;
        nextId := Lookup(prevId).nextId;
        i := i + 1;
      }
    }

    method AscendList(nicr: Address -> nat, key: nat, startId: Address) returns (prevId: Address, nextId: Address)
      requires Valid()
      requires startId in list && nicr(startId) <= key
      ensures ValidInsertPosition(nicr, key, prevId, nextId)
    {
      if tail == startId && key <= nicr(startId) {
        return startId, NULL;
      }
      nextId := startId;
      prevId := Lookup(nextId).prevId;
      ghost var i: nat :| i < |list| && list[i] == nextId;
      LinksAt(i);
      while nextId != NULL && !ValidInsertPosition(nicr, key, prevId, nextId)
        invariant i < |list| && nextId == list[i] && prevId == PrevAt(list, i)
        invariant nextId != NULL && nicr(nextId) <= key
        decreases i
      {
        StepUp(nicr, key, i);
        LinksAt(i);
        LinksAt(i - 1);
        nextId := Lookup(nextId).prevId;
        prevId := Lookup(nextId).prevId;
        i := i - 1;
      }
    }

    /** The search ends at adjacent neighbours that bracket the key, whatever the two hints are. */
    method FindInsertPosition(nicr: Address -> nat, key: nat, prevHint: Address, nextHint: Address)
      returns (prevId: Address, nextId: Address)
      requires Valid()
      ensures exists k :: IsPosition(list, nicr, key, prevId, nextId, k)
    {
      prevId, nextId := prevHint, nextHint;
      if prevId != NULL {
        if !Contains(prevId) || key > nicr(prevId) {
          prevId := NULL;
        }
      }
      if nextId != NULL {
        if !Contains(nextId) || key < nicr(nextId) {
          nextId := NULL;
        }
      }
      if prevId == NULL && nextId == NULL {
        prevId, nextId := DescendList(nicr, key, head);
      } else if prevId == NULL {
        prevId, nextId := AscendList(nicr, key, nextId);
      } else {
        prevId, nextId := DescendList(nicr, key, prevId);
      }
      PositionTest(nicr, key, prevId, nextId);
    }

    /**
     Reverts on a full list, a duplicate, the null id or a zero NICR; otherwise the list gains
     exactly that id, in order whenever it was in order.
     */
    method Insert(nicr: Address -> nat, id: Address, key: nat, prevHint: Address, nextHint: Address) returns (ok: bool)
      requires Valid()
      modifies this
      ensures Valid()
      ensures ok <==> old(|list|) < maxSize && id !in old(list) && id != NULL && key > 0
      ensures !ok ==> list == old(list)
      ensures ok ==> exists k :: Brackets(old(list), nicr, key, k) && list == InsertAt(old(list), k, id)
      ensures ok && Sorted(old(list), nicr) ==> Sorted(list, With(nicr, id, key))
    {
      ContainsExactly(id);
      if IsFull() || Contains(id) || id == NULL || key == 0 {
        return false;
      }
      var prevId, nextId := prevHint, nextHint;
      PositionTest(nicr, key, prevId, nextId);
      if !ValidInsertPosition(nicr, key, prevId, nextId) {
        prevId, nextId := FindInsertPosition(nicr, key, prevId, nextId);
      }
      ghost var k :| IsPosition(list, nicr, key, prevId, nextId, k);
      if Sorted(list, nicr) {
        InsertSorted(list, nicr, id, key, k);
      }
      Link(id, prevId, nextId, k);
      return true;
    }

    /** The pointer writes of an insertion between `prevId` and `nextId`. */
    method Link(id: Address, prevId: Address, nextId: Address, ghost k: nat)
      requires Valid() && size < maxSize && id != NULL && id !in list
      requires k <= |list| && prevId == PrevAt(list, k) && nextId == NextAt(list, k)
      modifies this
      ensures Valid() && list == InsertAt(old(list), k, id)
    {
      LinkKeepsLinked(nodes, list, k, id);
      InsertDistinct(list, k, id);
      list := InsertAt(list, k, id);
      if prevId == NULL && nextId == NULL {
        nodes := nodes[id := Node(true, NULL, NULL)];
        head, tail := id, id;
      } else if prevId == NULL {
        nodes := nodes[head := Lookup(head).(prevId := id)];
        nodes := nodes[id := Node(true, head, NULL)];
        head := id;
      } else if nextId == NULL {
        nodes := nodes[tail := Lookup(tail).(nextId := id)];
        nodes := nodes[id := Node(true, NULL, tail)];
        tail := id;
      } else {
        nodes := nodes[prevId := Lookup(prevId).(nextId := id)];
        nodes := nodes[nextId := Lookup(nextId).(prevId := id)];
        nodes := nodes[id := Node(true, nextId, prevId)];
      }
      assert nodes == LinkNodes(old(nodes), prevId, id, nextId);
      size := size + 1;
    }

    /** Reverts on an id that is not in the list; otherwise takes out exactly that id. */
    method Remove(id: Address) returns (ok: bool)
      requires Valid()
      modifies this
      ensures Valid()
      ensures ok <==> id in old(list)
      ensures list == Without(old(list), id)
    {
      ContainsExactly(id);
      if !Contains(id) {
        WithoutAbsent(list, id);
        return false;
      }
      ghost var k: nat :| k < |list| && list[k] == id;
      LinksAt(k);
      Unlink(id, k);
      return true;
    }

    /** The pointer writes of a removal. */
    method Unlink(id: Address, ghost k: nat)
      requires Valid() && k < |list| && id == list[k]
      requires Lookup(id) == LinksOf(list, k)
      modifies this
      ensures Valid() && list == Without(old(list), id)
    {
      UnlinkKeepsLinked(nodes, list, k);
      WithoutDistinct(list, k);
      UnlinkEnds(list, k);
      list := Without(list, id);
      var node := Lookup(id);
      if size > 1 {
        if id == head {
          head := node.nextId;
          nodes := nodes[head := Lookup(head).(prevId := NULL)];
        } else if id == tail {
          tail := node.prevId;
          nodes := nodes[tail := Lookup(tail).(nextId := NULL)];
        } else {
          nodes := nodes[node.prevId := Lookup(node.prevId).(nextId := node.nextId)];
          nodes := nodes[node.nextId := Lookup(node.nextId).(prevId := node.prevId)];
        }
      } else {
        head, tail := NULL, NULL;
      }
      nodes := nodes - {id};
      assert nodes == UnlinkNodes(old(nodes), node.prevId, id, node.nextId);
      size := size - 1;
    }

    /**
     Reverts on an id that is not in the list or a zero NICR. The other troves keep their places,
     and the list ends in order whenever they were: the moved trove may already have its new ratio.
     */
    method ReInsert(nicr: Address -> nat, id: Address, key: nat, prevHint: Address, nextHint: Address) returns (ok: bool)
      requires Valid()
      modifies this
      ensures Valid()
      ensures ok <==> id in old(list) && key > 0
      ensures !ok ==> list == old(list)
      ensures ok ==> id in list && |list| == old(|list|) && Without(list, id) == Without(old(list), id)
      ensures ok && Sorted(Without(old(list), id), nicr) ==> Sorted(list, With(nicr, id, key))
    {
      ContainsExactly(id);
      if !Contains(id) || key == 0 {
        return false;
      }
      ok := Remove(id);
      ghost var rest := list;
      WithoutSize(old(list), id);
      ok := Insert(nicr, id, key, prevHint, nextHint);
      ghost var k :| Brackets(rest, nicr, key, k) && list == InsertAt(rest, k, id);
      InsertThenWithout(rest, k, id);
      assert list[k] == id;
    }
  }
}
