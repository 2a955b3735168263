/** `sort_by_bit_count`: the list of remotes is relinked in place, by insertion. */
module SortRemotes {

  /** An element of the list of remotes; only its bit count matters here. */
  class Node {
    const bitCount: nat
    var next: Node?

    constructor (bitCount: nat, next: Node?)
      ensures this.bitCount == bitCount && this.next == next
    {
      this.bitCount, this.next := bitCount, next;
    }
  }

  predicate Distinct(s: seq<Node>) {
    forall i, j :: 0 <= i < j < |s| ==> s[i] != s[j]
  }

  function At(s: seq<Node>, i: nat): Node? {
    if i < |s| then s[i] else null
  }

  /** `top` is the head of a list of exactly the nodes `s`, in order. */
  ghost predicate Linked(top: Node?, s: seq<Node>)
    reads s
  {
    top == At(s, 0) && Distinct(s) && forall i :: 0 <= i < |s| ==> s[i].next == At(s, i + 1)
  }

  /** `rem` goes after all elements that do not have more bits. */
  function Insert(s: seq<Node>, rem: Node): seq<Node> {
    if s == [] || s[0].bitCount > rem.bitCount then [rem] + s else [s[0]] + Insert(s[1..], rem)
  }

  function Sort(s: seq<Node>): seq<Node> {
    if s == [] then [] else Insert(Sort(s[..|s| - 1]), s[|s| - 1])
  }

  lemma {:induction false} InsertAt(s: seq<Node>, rem: Node, k: nat)
    requires k <= |s| && (forall i :: 0 <= i < k ==> s[i].bitCount <= rem.bitCount)
    requires k < |s| ==> s[k].bitCount > rem.bitCount
    ensures Insert(s, rem) == s[..k] + [rem] + s[k..]
    decreases |s|
  {
    if k == 0 {
    } else {
      InsertAt(s[1..], rem, k - 1);
      assert s[1..][..k - 1] == s[1..k] && s[1..][k - 1..] == s[k..];
      assert [s[0]] + s[1..k] == s[..k];
    }
  }

  lemma InsertKeepsSet(s: seq<Node>, rem: Node, k: nat)
    requires k <= |s|
    ensures var t := s[..k] + [rem] + s[k..];
            forall n :: n in t <==> n in s || n == rem
  {
    assert s == s[..k] + s[k..];
  }

  lemma InsertDistinct(s: seq<Node>, rem: Node, k: nat)
    requires k <= |s| && Distinct(s) && rem !in s
    ensures Distinct(s[..k] + [rem] + s[k..])
  {
  }

  /** Puts `rem` between `prev` and `scan`. */
  method LinkIn(head: Node?, prev: Node?, rem: Node, scan: Node?, ghost t: seq<Node>, ghost k: nat)
    returns (top: Node?)
    requires Linked(head, t) && k <= |t| && rem !in t
    requires scan == At(t, k) && prev == if k == 0 then null else t[k - 1]
    modifies rem, if prev != null then {prev} else {}
    ensures Linked(top, t[..k] + [rem] + t[k..])
  {
    InsertDistinct(t, rem, k);
    top := head;
    if prev != null {
      prev.next := rem;
    } else {
      top := rem;
    }
    rem.next := scan;
  }

  /** How many elements at the beginning do not have more bits than `rem`. */
  function Place(t: seq<Node>, rem: Node): (k: nat)
    ensures k <= |t| && (forall j :: 0 <= j < k ==> t[j].bitCount <= rem.bitCount)
    ensures k < |t| ==> t[k].bitCount > rem.bitCount
  {
    if t == [] || t[0].bitCount > rem.bitCount then 0 else 1 + Place(t[1..], rem)
  }

  lemma PlaceIs(t: seq<Node>, rem: Node, k: nat)
    requires k <= |t| && forall j :: 0 <= j < k ==> t[j].bitCount <= rem.bitCount
    requires k < |t| ==> t[k].bitCount > rem.bitCount
    ensures k == Place(t, rem)
  {
  }

  /** The first element with more bits than `rem`, and the one before it. */
  method FindPlace(top: Node?, rem: Node, ghost t: seq<Node>) returns (prev: Node?, scan: Node?)
    requires Linked(top, t)
    ensures var k := Place(t, rem); scan == At(t, k) && prev == if k == 0 then null else t[k - 1]
  {
    hide Place;
    prev, scan := null, top;
    ghost var k := 0;
    while scan != null && scan.bitCount <= rem.bitCount
      invariant k <= |t| && scan == At(t, k) && prev == if k == 0 then null else t[k - 1]
      invariant forall j :: 0 <= j < k ==> t[j].bitCount <= rem.bitCount
      decreases |t| - k
    {
      prev, scan, k := scan, scan.next, k + 1;
    }
    PlaceIs(t, rem, k);
  }

  /** Finds the place of `rem` in the sorted list and puts it there. */
  method InsertNode(head: Node?, rem: Node, ghost t: seq<Node>) returns (top: Node?)
    requires Linked(head, t) && rem !in t
    modifies rem, t
    ensures Linked(top, Insert(t, rem))
  {
    var prev, scan := FindPlace(head, rem, t);
    ghost var k := Place(t, rem);
    InsertAt(t, rem, k);
    top := LinkIn(head, prev, rem, scan, t, k);
  }

  /** The nodes of `t` are the first `i` of `s`. */
  ghost predicate Holds(t: seq<Node>, s: seq<Node>, i: nat) {
    i <= |s| && forall j :: 0 <= j < |t| ==> t[j] in s[..i]
  }

  lemma HoldsNext(t: seq<Node>, s: seq<Node>, i: nat)
    requires Holds(t, s, i) && i < |s|
    ensures Holds(Insert(t, s[i]), s, i + 1)
  {
    var k := Place(t, s[i]);
    InsertAt(t, s[i], k);
    InsertKeepsSet(t, s[i], k);
    assert s[..i + 1] == s[..i] + [s[i]];
  }

  lemma HoldsOnly(t: seq<Node>, s: seq<Node>, i: nat)
    requires Holds(t, s, i) && Distinct(s)
    ensures forall j :: 0 <= j < |t| ==> t[j] in s
    ensures forall j :: i <= j < |s| ==> s[j] !in t && (j > i ==> s[j] != s[i])
  {
    forall j | 0 <= j < |t|
      ensures t[j] in s
    {
      assert t[j] in s[..i];
    }
  }

  /** The relinked list has every node of the old one exactly once: no node is lost or doubled. */
  method SortByBitCount(remotes: Node?, ghost s: seq<Node>) returns (top: Node?)
    requires Linked(remotes, s)
    modifies s
    ensures Linked(top, Sort(s))
  {
    hide Holds, Insert, Sort, Linked, Distinct;
    LinkedParts(remotes, s);
    var rem := remotes;
    top := null;
    ghost var i, t: seq<Node> := 0, [];
    NothingHeld(s);
    while rem != null
      invariant i <= |s| && rem == At(s, i)
      invariant forall j :: i <= j < |s| ==> s[j].next == At(s, j + 1)
      invariant t == Sort(s[..i]) && Linked(top, t) && Holds(t, s, i)
      decreases |s| - i
    {
      var next := rem.next;
      HoldsOnly(t, s, i);
      top := InsertNode(top, rem, t);
      HoldsNext(t, s, i);
      SortNext(s, i);
      rem, i, t := next, i + 1, Insert(t, rem);
    }
    assert s[..i] == s;
  }

  lemma LinkedParts(top: Node?, s: seq<Node>)
    requires Linked(top, s)
    ensures top == At(s, 0) && Distinct(s) && forall i :: 0 <= i < |s| ==> s[i].next == At(s, i + 1)
  {
  }

  lemma NothingHeld(s: seq<Node>)
    ensures Holds([], s, 0) && Sort(s[..0]) == [] && Linked(null, [])
  {
  }

  lemma SortNext(s: seq<Node>, i: nat)
    requires i < |s|
    ensures Sort(s[..i + 1]) == Insert(Sort(s[..i]), s[i])
  {
    assert s[..i + 1][..i] == s[..i];
  }

  // ----- what the order is -----

  predicate Ascending(s: seq<Node>) {
    forall i, j :: 0 <= i < j < |s| ==> s[i].bitCount <= s[j].bitCount
  }

  /** The nodes with `b` bits, in order. */
  function WithBits(s: seq<Node>, b: nat): seq<Node> {
    if s == [] then []
    else (if s[0].bitCount == b then [s[0]] else []) + WithBits(s[1..], b)
  }

  lemma {:induction false} InsertPermutes(s: seq<Node>, rem: Node)
    ensures multiset(Insert(s, rem)) == multiset(s) + multiset{rem}
  {
    if s != [] && s[0].bitCount <= rem.bitCount {
      InsertPermutes(s[1..], rem);
      assert s == [s[0]] + s[1..];
    }
  }

  lemma InsertBounded(s: seq<Node>, rem: Node, b: nat)
    requires b <= rem.bitCount && forall i :: 0 <= i < |s| ==> b <= s[i].bitCount
    ensures forall i :: 0 <= i < |Insert(s, rem)| ==> b <= Insert(s, rem)[i].bitCount
  {
    hide Insert;
    InsertPermutes(s, rem);
    var t := Insert(s, rem);
    forall i | 0 <= i < |t|
      ensures b <= t[i].bitCount
    {
      assert t[i] in multiset(t);
    }
  }

  lemma {:induction false} InsertAscends(s: seq<Node>, rem: Node)
    requires Ascending(s)
    ensures Ascending(Insert(s, rem))
  {
    if s != [] && s[0].bitCount <= rem.bitCount {
      InsertAscends(s[1..], rem);
      InsertBounded(s[1..], rem, s[0].bitCount);
    }
  }

  lemma {:induction false} WithBitsAppend(s: seq<Node>, n: Node, b: nat)
    ensures WithBits(s + [n], b) == WithBits(s, b) + if n.bitCount == b then [n] else []
  {
    hide WithBits;
    WithBitsFirst(s, b);
    WithBitsFirst(s + [n], b);
    WithBitsFirst([], b);
    if s == [] {
      assert (s + [n])[1..] == [];
    } else {
      WithBitsAppend(s[1..], n, b);
      assert (s + [n])[1..] == s[1..] + [n];
    }
  }

  lemma WithBitsFirst(s: seq<Node>, b: nat)
    ensures WithBits(s, b) == if s == [] then []
                              else (if s[0].bitCount == b then [s[0]] else []) + WithBits(s[1..], b)
  {
  }

  lemma {:induction false} NoneWithBits(s: seq<Node>, b: nat)
    requires forall i :: 0 <= i < |s| ==> s[i].bitCount > b
    ensures WithBits(s, b) == []
  {
    if s == [] {
    } else {
      NoneWithBits(s[1..], b);
    }
  }

  lemma {:induction false} InsertIsStable(s: seq<Node>, rem: Node, b: nat)
    requires Ascending(s)
    ensures WithBits(Insert(s, rem), b) == WithBits(s, b) + if rem.bitCount == b then [rem] else []
  {
    if s != [] && s[0].bitCount <= rem.bitCount {
      InsertIsStable(s[1..], rem, b);
      assert ([s[0]] + Insert(s[1..], rem))[1..] == Insert(s[1..], rem);
    } else {
      assert ([rem] + s)[1..] == s;
      if rem.bitCount == b { NoneWithBits(s, b); }
    }
  }

  lemma SortNothing(b: nat)
    ensures Ascending([]) && WithBits([], b) == []
  {
  }

  /** A stable permutation in ascending order of bit count: equal elements stay in order. */
  lemma {:induction false} SortIsStable(s: seq<Node>, b: nat)
    ensures Ascending(Sort(s)) && multiset(Sort(s)) == multiset(s)
    ensures WithBits(Sort(s), b) == WithBits(s, b)
  {
    hide Ascending, Insert, WithBits;
    if s == [] {
      SortNothing(b);
    } else {
      var init, last := s[..|s| - 1], s[|s| - 1];
      SortIsStable(init, b);
      InsertAscends(Sort(init), last);
      InsertPermutes(Sort(init), last);
      InsertIsStable(Sort(init), last, b);
      WithBitsAppend(init, last, b);
      assert s == init + [last];
    }
  }
}
