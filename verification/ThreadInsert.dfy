/**
 What one insertion does to the display of a thread, and what the context cut at
 an anchor contains (database/thread_store.py).
 */
module ThreadInsert {
  import opened Wrappers
  import opened ThreadOrder

  /** `i` is the message `a` or was inserted, directly or not, below it. */
  ghost predicate Under(t: Table, a: int, i: int)
    requires Rooted(t, a)
  {
    Rooted(t, i) && PathOf(t, a) <= PathOf(t, i)
  }

  /** A row whose id is larger than every id and every anchor stored so far. */
  ghost predicate Newest(t: Table, m: Message) {
    forall i | i in t :: i < m.id && t[i].insertAfterId != Some(m.id)
  }

  lemma PathsKept(t: Table, m: Message, i: int)
    requires Newest(t, m) && i in t
    ensures Rooted(t[m.id := m], i) <==> Rooted(t, i)
    ensures Rooted(t, i) ==> PathOf(t[m.id := m], i) == PathOf(t, i)
  {
    var t' := t[m.id := m];
    if Rooted(t, i) {
      var p := PathOf(t, i);
      assert forall k | 0 < k < |p| :: IsChild(t, p[k-1], p[k]) ==> IsChild(t', p[k-1], p[k]);
      PathIs(t', p, i);
    }
    if Rooted(t', i) {
      var p := PathOf(t', i);
      ChainIsShort(t', p);
      forall k | 0 <= k < |p|
        ensures p[k] in t
      {
        assert k + 1 < |p| ==> IsChild(t', p[k], p[k+1]) && p[k] != p[k+1];
        assert k + 1 == |p| ==> p[k] == i;
      }
      forall k | 0 < k < |p|
        ensures IsChild(t, p[k-1], p[k])
      {
        assert IsChild(t', p[k-1], p[k]);
      }
      PathIs(t, p, i);
    }
  }

  lemma OrderKept(t: Table, o: seq<Message>, m: Message)
    requires Newest(t, m) && InOrder(t, o)
    ensures InOrder(t[m.id := m], o)
  {
    forall a, b | 0 <= a < b < |o|
      ensures Before(t[m.id := m], o[a].id, o[b].id)
    {
      PathsKept(t, m, o[a].id);
      PathsKept(t, m, o[b].id);
    }
  }

  lemma BeforeTotal(t: Table, i: int, j: int)
    requires i != j
    ensures Before(t, i, j) || Before(t, j, i)
  {
    if Rooted(t, i) && Rooted(t, j) {
      PathLessTotal(PathOf(t, i), PathOf(t, j));
    }
  }

  /** Everything before `e` is displayed before `m`, everything from `e` on after it. */
  ghost predicate Slot(t: Table, o: seq<Message>, m: Message, e: nat) {
    && e <= |o|
    && (forall k | 0 <= k < e :: Before(t, o[k].id, m.id))
    && (forall k | e <= k < |o| :: Before(t, m.id, o[k].id))
  }

  lemma FindSlot(t: Table, o: seq<Message>, m: Message) returns (e: nat)
    requires InOrder(t, o) && forall k | 0 <= k < |o| :: o[k].id != m.id
    ensures Slot(t, o, m, e)
  {
    e := 0;
    while e < |o| && Before(t, o[e].id, m.id)
      invariant e <= |o| && forall k | 0 <= k < e :: Before(t, o[k].id, m.id)
    {
      e := e + 1;
    }
    forall k | e <= k < |o|
      ensures Before(t, m.id, o[k].id)
    {
      BeforeTotal(t, o[e].id, m.id);
      BeforeIsStrict(t, m.id, o[e].id, o[k].id);
    }
  }

  lemma SlotInOrder(t: Table, o: seq<Message>, m: Message, e: nat)
    requires InOrder(t, o) && m.id in t && t[m.id] == m && Slot(t, o, m, e)
    ensures InOrder(t, o[..e] + [m] + o[e..])
  {
    var o' := o[..e] + [m] + o[e..];
    forall a, b | 0 <= a < b < |o'|
      ensures Before(t, o'[a].id, o'[b].id)
    {
      if b < e {
        assert o'[a] == o[a] && o'[b] == o[b];
      } else if a > e {
        assert o'[a] == o[a-1] && o'[b] == o[b-1];
      } else {
        BeforeIsStrict(t, o'[a].id, m.id, o'[b].id);
        assert a < e ==> o'[a] == o[a];
        assert b > e ==> o'[b] == o[b-1];
      }
    }
  }

  lemma SlotDisplays(t: Table, o: seq<Message>, m: Message, e: nat)
    requires Keyed(t) && Newest(t, m) && IsDisplay(t, o) && Slot(t[m.id := m], o, m, e)
    ensures IsDisplay(t[m.id := m], o[..e] + [m] + o[e..])
  {
    var t', o' := t[m.id := m], o[..e] + [m] + o[e..];
    OrderKept(t, o, m);
    SlotInOrder(t', o, m, e);
    assert o == o[..e] + o[e..];
    forall i | i in t'
      ensures t'[i] in o'
    {
      assert i != m.id ==> t[i] in o;
    }
  }

  lemma {:induction false} PathSqueeze(p: seq<int>, q: seq<int>, c: int)
    requires PathLess(p, q) && PathLess(q, p + [c])
    ensures p <= q
  {
    if p != [] {
      assert (p + [c])[1..] == p[1..] + [c];
      PathSqueeze(p[1..], q[1..], c);
    }
  }

  lemma NewPath(t: Table, m: Message, a: int)
    requires Newest(t, m) && m.insertAfterId == Some(a) && Rooted(t, a)
    ensures Rooted(t[m.id := m], m.id) && PathOf(t[m.id := m], m.id) == PathOf(t, a) + [m.id]
  {
    var t', p := t[m.id := m], PathOf(t, a);
    PathsKept(t, m, a);
    assert IsChild(t', a, m.id);
    PathIs(t', p + [m.id], m.id);
  }

  /** In a table of smaller ids, `q` starts with `p` exactly when it lies from `p` on, but below `p + [c]`. */
  lemma PrefixIffBetween(p: seq<int>, q: seq<int>, c: int)
    requires forall k | 0 <= k < |q| :: q[k] < c
    ensures p <= q <==> (q == p || PathLess(p, q)) && PathLess(q, p + [c])
  {
    if p <= q {
      PathLessAfterPrefix(p, q, p + [c]);
      assert (p + [c])[|p|..] == [c];
      PathLessAfterPrefix(p, p, q);
    } else if PathLess(p, q) && PathLess(q, p + [c]) {
      PathSqueeze(p, q, c);
    }
  }

  lemma UnderIffBetween(t: Table, a: int, i: int, m: Message)
    requires Newest(t, m) && m.insertAfterId == Some(a) && Rooted(t, a) && i in t
    ensures Under(t, a, i) <==> (i == a || Before(t, a, i)) && Before(t[m.id := m], i, m.id)
  {
    NewPath(t, m, a);
    PathsKept(t, m, i);
    if Rooted(t, i) {
      var p, q := PathOf(t, a), PathOf(t, i);
      assert q == p ==> i == a;
      PrefixIffBetween(p, q, m.id);
    }
  }

  /**
   Inserting the newest message below an anchor that a root reaches: the anchor and all that hangs
   below it are displayed as one unbroken block, the new message goes right behind that block, and
   nothing else moves.
   */
  lemma InsertFollowsBlock(t: Table, o: seq<Message>, m: Message, a: int) returns (s: nat, e: nat)
    requires Keyed(t) && Newest(t, m) && IsDisplay(t, o)
    requires m.insertAfterId == Some(a) && Rooted(t, a)
    ensures s < e <= |o| && o[s] == t[a]
    ensures forall k | 0 <= k < |o| :: s <= k < e <==> Under(t, a, o[k].id)
    ensures IsDisplay(t[m.id := m], o[..e] + [m] + o[e..])
  {
    var t' := t[m.id := m];
    OrderKept(t, o, m);
    e := FindSlot(t', o, m);
    SlotDisplays(t, o, m, e);
    s :| 0 <= s < |o| && o[s] == t[a];
    forall k | 0 <= k < |o|
      ensures s <= k < e <==> Under(t, a, o[k].id)
    {
      UnderIffBetween(t, a, o[k].id, m);
      SlotSplits(t', o, m, e, k);
      OrderSplits(t, o, s, k);
    }
    UnderIffBetween(t, a, a, m);
    SlotSplits(t', o, m, e, s);
  }

  lemma SlotSplits(t: Table, o: seq<Message>, m: Message, e: nat, k: nat)
    requires Slot(t, o, m, e) && k < |o|
    ensures k < e <==> Before(t, o[k].id, m.id)
  {
    BeforeIsStrict(t, o[k].id, m.id, o[k].id);
  }

  lemma OrderSplits(t: Table, o: seq<Message>, s: nat, k: nat)
    requires InOrder(t, o) && s < |o| && k < |o|
    ensures s <= k <==> o[k].id == o[s].id || Before(t, o[s].id, o[k].id)
  {
    InOrderDistinct(t, o);
    BeforeIsStrict(t, o[s].id, o[k].id, o[s].id);
  }

  /** A message without an anchor in the thread goes behind all that the roots reach. */
  lemma InsertRoot(t: Table, o: seq<Message>, m: Message) returns (e: nat)
    requires Keyed(t) && Newest(t, m) && IsDisplay(t, o)
    requires m.insertAfterId.None? || m.insertAfterId.value !in t[m.id := m]
    ensures e <= |o| && forall k | 0 <= k < |o| :: k < e <==> Rooted(t, o[k].id)
    ensures IsDisplay(t[m.id := m], o[..e] + [m] + o[e..])
  {
    var t' := t[m.id := m];
    OrderKept(t, o, m);
    e := FindSlot(t', o, m);
    SlotDisplays(t, o, m, e);
    PathIs(t', [m.id], m.id);
    forall k | 0 <= k < |o|
      ensures k < e <==> Rooted(t, o[k].id)
    {
      PathsKept(t, m, o[k].id);
      if Rooted(t, o[k].id) {
        assert PathOf(t, o[k].id)[0] in t;
        BeforeIsStrict(t', o[k].id, m.id, o[k].id);
      }
    }
  }

  /** A message anchored on itself, or on a message no root reaches, goes last. */
  lemma InsertUnrooted(t: Table, o: seq<Message>, m: Message)
    requires Keyed(t) && Newest(t, m) && IsDisplay(t, o)
    requires m.insertAfterId.Some?
    requires m.insertAfterId.value == m.id || (m.insertAfterId.value in t && !Rooted(t, m.insertAfterId.value))
    ensures IsDisplay(t[m.id := m], o + [m])
  {
    var t', a := t[m.id := m], m.insertAfterId.value;
    OrderKept(t, o, m);
    if Rooted(t', m.id) {
      var p := PathOf(t', m.id);
      ChainIsShort(t', p);
      assert |p| > 1 ==> IsChild(t', p[|p|-2], p[|p|-1]);
      if |p| > 1 && a in t {
        PathIs(t', p[..|p|-1], a);
        PathsKept(t, m, a);
      }
      assert false;
    }
    forall k | 0 <= k < |o|
      ensures Before(t', o[k].id, m.id)
    {
      PathsKept(t, m, o[k].id);
    }
    SlotDisplays(t, o, m, |o|);
    assert o[..|o|] + [m] + o[|o|..] == o + [m];
  }

  lemma AncestorIsBefore(t: Table, o: seq<Message>, k: nat, n: nat)
    requires Keyed(t) && IsDisplay(t, o) && k < |o| && Rooted(t, o[k].id) && n < |PathOf(t, o[k].id)|
    ensures PathOf(t, o[k].id)[n] in t && t[PathOf(t, o[k].id)[n]] in o[..k+1]
  {
    var a := o[k].id;
    var p := PathOf(t, a);
    var i, q := p[n], p[..n+1];
    PathIs(t, q, i);
    var j :| 0 <= j < |o| && o[j] == t[i];
    if k < j {
      assert Before(t, a, i);
      PathLessAfterPrefix(q, p, q);
    }
    assert o[..k+1][j] == t[i];
  }

  lemma BeforeIsNotUnder(t: Table, a: int, i: int)
    requires Rooted(t, a) && Before(t, i, a)
    ensures !Under(t, a, i)
  {
    if Under(t, a, i) {
      PathLessAfterPrefix(PathOf(t, a), PathOf(t, i), PathOf(t, a));
    }
  }

  /**
   The context cut behind a displayed anchor: it holds all the anchor's ancestors, and nothing that
   was inserted below the anchor.
   */
  lemma CutKeepsAncestors(t: Table, o: seq<Message>, k: nat)
    requires Keyed(t) && IsDisplay(t, o) && k < |o| && Rooted(t, o[k].id)
    ensures forall i | i in PathOf(t, o[k].id) :: i in t && t[i] in o[..k+1]
    ensures forall m | m in o[..k+1] && m != o[k] :: !Under(t, o[k].id, m.id)
  {
    var p := PathOf(t, o[k].id);
    forall i | i in p
      ensures i in t && t[i] in o[..k+1]
    {
      var n :| 0 <= n < |p| && p[n] == i;
      AncestorIsBefore(t, o, k, n);
    }
    forall m | m in o[..k+1] && m != o[k]
      ensures !Under(t, o[k].id, m.id)
    {
      var j :| 0 <= j < k + 1 && o[j] == m;
      BeforeIsNotUnder(t, o[k].id, m.id);
    }
  }
}
