/** The logic's list of collision-warning nodes whose warning sound is
    currently wanted (a `std::deque` of node pointers in the program). The
    operations below are the linear search, the guarded `push_back` and the
    `erase` of the first match that the event handlers perform on it. */
module PlayingList {
  import opened Types

  /** No node appears twice in the list. */
  ghost predicate NoDup(s: seq<NodeId>)
  {
    forall i, j :: 0 <= i < j < |s| ==> s[i] != s[j]
  }

  /** The list with every occurrence of `x` taken out, order kept: what the
      rest of the list looks like from the point of view of node `x`. */
  function Without(s: seq<NodeId>, x: NodeId): (r: seq<NodeId>)
    ensures x !in r
    ensures forall y :: y != x ==> (y in r <==> y in s)
    ensures |r| <= |s|
  {
    if |s| == 0 then []
    else if s[0] == x then Without(s[1..], x)
    else [s[0]] + Without(s[1..], x)
  }

  /** Linear search from the front: the index of the first entry equal to
      `x`, or `|s|` (the end iterator) when there is none. */
  function Find(s: seq<NodeId>, x: NodeId): (i: nat)
    ensures i <= |s|
    ensures i < |s| ==> s[i] == x
    ensures forall j :: 0 <= j < i ==> s[j] != x
  {
    if |s| == 0 then 0
    else if s[0] == x then 0
    else 1 + Find(s[1..], x)
  }

  /** `erase` of the entry at position `i`. */
  function EraseAt(s: seq<NodeId>, i: nat): (r: seq<NodeId>)
    requires i < |s|
    ensures |r| == |s| - 1
    ensures forall j :: 0 <= j < i ==> r[j] == s[j]
    ensures forall j :: i <= j < |r| ==> r[j] == s[j + 1]
  {
    s[..i] + s[i + 1..]
  }

  /** Add `x` at the back unless the search finds it already. */
  function Insert(s: seq<NodeId>, x: NodeId): (r: seq<NodeId>)
    ensures x in r
    ensures x in s ==> r == s
    ensures x !in s ==> r == s + [x]
  {
    if Find(s, x) == |s| then s + [x] else s
  }

  /** Erase the first entry equal to `x`, if the search finds one. */
  function Remove(s: seq<NodeId>, x: NodeId): (r: seq<NodeId>)
    ensures x !in s ==> r == s
    ensures x in s ==> |r| == |s| - 1
    ensures x in s ==>
      exists i :: 0 <= i < |s| && s[i] == x && x !in s[..i] && r == s[..i] + s[i + 1..]
    ensures multiset(r) == multiset(s) - multiset{x}
  {
    var i := Find(s, x);
    if i < |s| then
      assert s == s[..i] + [s[i]] + s[i + 1..];
      assert x !in s[..i];
      EraseAt(s, i)
    else s
  }

  /** On a list without duplicates, removal leaves no entry equal to `x`. */
  lemma RemoveErasesAll(s: seq<NodeId>, x: NodeId)
    requires NoDup(s)
    ensures x !in Remove(s, x)
  {
  }

  /** The membership step of the event handler: insert when the node
      should play, remove it otherwise. */
  function Update(s: seq<NodeId>, x: NodeId, shouldPlay: bool): (r: seq<NodeId>)
    ensures shouldPlay ==> x in r
    ensures NoDup(s) ==> NoDup(r) && (x in r <==> shouldPlay)
    ensures Without(r, x) == Without(s, x)
  {
    if shouldPlay then
      assert NoDup(s) ==> NoDup(Insert(s, x)) by {
        if NoDup(s) { InsertKeepsNoDup(s, x); }
      }
      InsertOthersUnchanged(s, x);
      Insert(s, x)
    else
      assert NoDup(s) ==> NoDup(Remove(s, x)) && x !in Remove(s, x) by {
        if NoDup(s) {
          RemoveKeepsNoDup(s, x);
          RemoveErasesAll(s, x);
        }
      }
      RemoveOthersUnchanged(s, x);
      Remove(s, x)
  }

  lemma {:induction false} WithoutAppend(a: seq<NodeId>, b: seq<NodeId>, x: NodeId)
    ensures Without(a + b, x) == Without(a, x) + Without(b, x)
    decreases |a|
  {
    if |a| == 0 {
      assert a + b == b;
    } else {
      assert (a + b)[1..] == a[1..] + b;
      WithoutAppend(a[1..], b, x);
    }
  }

  lemma WithoutSingleton(y: NodeId, x: NodeId)
    ensures Without([y], x) == if y == x then [] else [y]
  {
    assert [y][1..] == [];
  }

  /** Taking out an absent node changes nothing. */
  lemma {:induction false} WithoutAbsent(s: seq<NodeId>, x: NodeId)
    requires x !in s
    ensures Without(s, x) == s
    decreases |s|
  {
    if |s| > 0 {
      WithoutAbsent(s[1..], x);
      assert s == [s[0]] + s[1..];
    }
  }

  /** A list made only of `x` vanishes when `x` is taken out. */
  lemma {:induction false} WithoutOnly(s: seq<NodeId>, x: NodeId)
    requires forall i :: 0 <= i < |s| ==> s[i] == x
    ensures Without(s, x) == []
    decreases |s|
  {
    if |s| > 0 {
      WithoutOnly(s[1..], x);
    }
  }

  /** Inserting only ever touches entries equal to `x`. */
  lemma InsertOthersUnchanged(s: seq<NodeId>, x: NodeId)
    ensures Without(Insert(s, x), x) == Without(s, x)
  {
    if x !in s {
      WithoutAppend(s, [x], x);
      WithoutSingleton(x, x);
      assert Without(s, x) + [] == Without(s, x);
    }
  }

  /** Erasing the first match only ever touches entries equal to `x`, and
      the remaining entries keep their order. */
  lemma RemoveOthersUnchanged(s: seq<NodeId>, x: NodeId)
    ensures Without(Remove(s, x), x) == Without(s, x)
  {
    var i := Find(s, x);
    if i < |s| {
      assert s == s[..i] + ([s[i]] + s[i + 1..]);
      WithoutAppend(s[..i], [s[i]] + s[i + 1..], x);
      WithoutAppend([s[i]], s[i + 1..], x);
      WithoutSingleton(s[i], x);
      WithoutAppend(s[..i], s[i + 1..], x);
      assert [] + Without(s[i + 1..], x) == Without(s[i + 1..], x);
    }
  }

  lemma InsertKeepsNoDup(s: seq<NodeId>, x: NodeId)
    requires NoDup(s)
    ensures NoDup(Insert(s, x))
  {
  }

  lemma RemoveKeepsNoDup(s: seq<NodeId>, x: NodeId)
    requires NoDup(s)
    ensures NoDup(Remove(s, x))
  {
  }

  /** Inserting twice is inserting once. */
  lemma InsertIdempotent(s: seq<NodeId>, x: NodeId)
    ensures Insert(Insert(s, x), x) == Insert(s, x)
  {
  }

  /** On a list without duplicates, removing twice is removing once. */
  lemma RemoveIdempotent(s: seq<NodeId>, x: NodeId)
    requires NoDup(s)
    ensures Remove(Remove(s, x), x) == Remove(s, x)
  {
  }
}
