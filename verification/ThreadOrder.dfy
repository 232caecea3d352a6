/**
 The display order of one thread (database/thread_store.py), stated without the
 traversal that computes it: every message that some root reaches is placed by
 its path of ids from that root, compared lexicographically; all the others,
 which sit on or below a cycle of anchors, follow in id order.
 */
module ThreadOrder {
  import opened Wrappers

  datatype Message = Message(
    id: int,
    role: string,
    provider: Option<string>,
    messageType: string,
    content: string,
    insertAfterId: Option<int>
  )

  type Table = map<int, Message>

  ghost predicate Keyed(t: Table) {
    forall i | i in t :: t[i].id == i
  }

  predicate UniqueIds(rows: seq<Message>) {
    forall i, j | 0 <= i < j < |rows| :: rows[i].id != rows[j].id
  }

  function TableOf(rows: seq<Message>): (t: Table)
    requires UniqueIds(rows)
    ensures Keyed(t)
    ensures forall m: Message :: m in rows <==> m.id in t && t[m.id] == m
  {
    map k | 0 <= k < |rows| :: rows[k].id := rows[k]
  }

  // ----- paths of anchors ------------------------------------------------

  predicate IsRoot(t: Table, i: int)
    requires i in t
  {
    t[i].insertAfterId.None? || t[i].insertAfterId.value !in t
  }

  predicate IsChild(t: Table, parent: int, i: int) {
    i in t && t[i].insertAfterId == Some(parent) && parent in t
  }

  /** `p` leads from a root, each message inserted after the one before it. */
  ghost predicate Chain(t: Table, p: seq<int>) {
    && |p| > 0
    && (forall k | 0 <= k < |p| :: p[k] in t)
    && IsRoot(t, p[0])
    && forall k | 0 < k < |p| :: IsChild(t, p[k-1], p[k])
  }

  ghost predicate ChainTo(t: Table, p: seq<int>, i: int) {
    Chain(t, p) && p[|p|-1] == i
  }

  ghost predicate Rooted(t: Table, i: int) {
    exists p :: ChainTo(t, p, i)
  }

  ghost function PathOf(t: Table, i: int): (p: seq<int>)
    requires Rooted(t, i)
    ensures ChainTo(t, p, i)
  {
    var p :| ChainTo(t, p, i);
    p
  }

  lemma {:induction false} ChainUnique(t: Table, p: seq<int>, q: seq<int>)
    requires Chain(t, p) && Chain(t, q) && p[|p|-1] == q[|q|-1]
    ensures p == q
    decreases |p|
  {
    assert |p| > 1 ==> IsChild(t, p[|p|-2], p[|p|-1]);
    assert |q| > 1 ==> IsChild(t, q[|q|-2], q[|q|-1]);
    if |p| > 1 {
      ChainUnique(t, p[..|p|-1], q[..|q|-1]);
      assert p == p[..|p|-1] + [p[|p|-1]] && q == q[..|q|-1] + [q[|q|-1]];
    }
  }

  lemma PathIs(t: Table, p: seq<int>, i: int)
    requires ChainTo(t, p, i)
    ensures Rooted(t, i) && PathOf(t, i) == p
  {
    ChainUnique(t, p, PathOf(t, i));
  }

  lemma ChildPath(t: Table, a: int, i: int)
    requires Rooted(t, a) && IsChild(t, a, i)
    ensures Rooted(t, i) && PathOf(t, i) == PathOf(t, a) + [i]
  {
    PathIs(t, PathOf(t, a) + [i], i);
  }

  /** A path never meets a message twice, so it is no longer than the table. */
  lemma ChainIsShort(t: Table, p: seq<int>)
    requires Chain(t, p)
    ensures forall i, j | 0 <= i < j < |p| :: p[i] != p[j]
    ensures |p| <= |t|
  {
    forall i, j | 0 <= i < j < |p|
      ensures p[i] != p[j]
    {
      var p', q' := p[..i+1], p[..j+1];
      assert p' != q';
      if p[i] == p[j] {
        ChainUnique(t, p', q');
      }
    }
    DistinctIsShort(p, t.Keys);
  }

  lemma {:induction false} DistinctIsShort(p: seq<int>, s: set<int>)
    requires forall i, j | 0 <= i < j < |p| :: p[i] != p[j]
    requires forall k | 0 <= k < |p| :: p[k] in s
    ensures |p| <= |s|
  {
    if p != [] {
      var last := p[|p|-1];
      DistinctIsShort(p[..|p|-1], s - {last});
    }
  }

  // ----- messages on or below a cycle -------------------------------------

  /** The message `n` anchors above `i`, if there is one. */
  function Up(t: Table, i: int, n: nat): Option<int> {
    if n == 0 then
      if i in t then Some(i) else None
    else
      match Up(t, i, n - 1)
      case None => None
      case Some(j) => if j in t && !IsRoot(t, j) then t[j].insertAfterId else None
  }

  ghost predicate OnCycle(t: Table, c: int) {
    exists n: nat :: n > 0 && Up(t, c, n) == Some(c)
  }

  ghost predicate Reaches(t: Table, i: int, n: nat, c: int) {
    Up(t, i, n) == Some(c)
  }

  ghost predicate OnOrBelowCycle(t: Table, i: int) {
    exists n: nat, c :: Reaches(t, i, n, c) && OnCycle(t, c)
  }

  lemma {:induction false} UpAlongChain(t: Table, p: seq<int>, n: nat)
    requires Chain(t, p) && n <= |p|
    ensures Up(t, p[|p|-1], n) == if n < |p| then Some(p[|p|-1-n]) else None
  {
    if n > 0 {
      UpAlongChain(t, p, n - 1);
      if n < |p| {
        assert IsChild(t, p[|p|-1-n], p[|p|-n]);
      }
    }
  }

  lemma {:induction false} UpStaysNone(t: Table, i: int, m: nat, n: nat)
    requires m <= n && Up(t, i, m) == None
    ensures Up(t, i, n) == None
  {
    if m < n {
      UpStaysNone(t, i, m, n - 1);
    }
  }

  lemma {:induction false} UpAdds(t: Table, i: int, m: nat, n: nat, j: int)
    requires Up(t, i, m) == Some(j)
    ensures Up(t, i, m + n) == Up(t, j, n)
  {
    if n > 0 {
      UpAdds(t, i, m, n - 1, j);
    } else {
      UpInTable(t, i, m);
    }
  }

  lemma {:induction false} UpInTable(t: Table, i: int, n: nat)
    ensures Up(t, i, n).Some? ==> Up(t, i, n).value in t
  {
    if n > 0 {
      UpInTable(t, i, n - 1);
    }
  }

  /** If the climb from `i` ends, it ends at a root, which therefore reaches `i`. */
  lemma {:induction false} ClimbEndsAtRoot(t: Table, i: int, n: nat) returns (p: seq<int>)
    requires i in t && Up(t, i, n) == None
    ensures ChainTo(t, p, i)
    decreases n
  {
    if IsRoot(t, i) {
      p := [i];
    } else {
      var parent := t[i].insertAfterId.value;
      assert Up(t, i, 0) == Some(i);
      assert Up(t, i, 1) == Some(parent);
      UpAdds(t, i, 1, n - 1, parent);
      p := ClimbEndsAtRoot(t, parent, n - 1);
      p := p + [i];
    }
  }

  lemma {:induction false} ClimbRepeats(t: Table, i: int, n: nat, seen: seq<int>) returns (a: nat, b: nat)
    requires n == |seen| <= |t| + 1
    requires forall k | 0 <= k < n :: seen[k] in t && Up(t, i, k) == Some(seen[k])
    requires forall k | n <= k <= |t| :: Up(t, i, k).Some?
    ensures a < b && Up(t, i, a).Some? && Up(t, i, a) == Up(t, i, b)
    decreases |t| + 1 - n
  {
    if a', b' :| 0 <= a' < b' < n && seen[a'] == seen[b'] {
      a, b := a', b';
    } else if n == |t| + 1 {
      DistinctIsShort(seen, t.Keys);
      assert false;
    } else {
      UpInTable(t, i, n);
      a, b := ClimbRepeats(t, i, n + 1, seen + [Up(t, i, n).value]);
    }
  }

  /** The messages no root reaches are exactly those on or below a cycle. */
  lemma UnrootedIffOnOrBelowCycle(t: Table, i: int)
    requires i in t
    ensures !Rooted(t, i) <==> OnOrBelowCycle(t, i)
  {
    if Rooted(t, i) && OnOrBelowCycle(t, i) {
      var p := PathOf(t, i);
      var n: nat, c :| Reaches(t, i, n, c) && OnCycle(t, c);
      var m: nat :| m > 0 && Up(t, c, m) == Some(c);
      UpAlongChain(t, p, |p|);
      if n >= |p| {
        UpStaysNone(t, i, |p|, n);
      }
      UpAlongChain(t, p, n);
      var q := p[..|p|-n];
      ChainIsShort(t, q);
      UpAlongChain(t, q, |q|);
      if m >= |q| {
        UpStaysNone(t, c, |q|, m);
      }
      UpAlongChain(t, q, m);
    }
    if !Rooted(t, i) {
      forall k: nat
        ensures Up(t, i, k).Some?
      {
        if Up(t, i, k) == None {
          var p := ClimbEndsAtRoot(t, i, k);
          PathIs(t, p, i);
        }
      }
      var a, b := ClimbRepeats(t, i, 0, []);
      var c := Up(t, i, a).value;
      UpAdds(t, i, a, b - a, c);
      assert Reaches(t, i, a, c) && OnCycle(t, c);
    }
  }

  // ----- the order ----------------------------------------------------------

  /** Lexicographic order; a path comes before its extensions. */
  predicate PathLess(p: seq<int>, q: seq<int>) {
    && q != []
    && (p == [] || p[0] < q[0] || (p[0] == q[0] && PathLess(p[1..], q[1..])))
  }

  lemma {:induction false} PathLessIrreflexive(p: seq<int>)
    ensures !PathLess(p, p)
  {
    if p != [] {
      PathLessIrreflexive(p[1..]);
    }
  }

  lemma {:induction false} PathLessTransitive(p: seq<int>, q: seq<int>, r: seq<int>)
    requires PathLess(p, q) && PathLess(q, r)
    ensures PathLess(p, r)
  {
    if p != [] && p[0] == q[0] == r[0] {
      PathLessTransitive(p[1..], q[1..], r[1..]);
    }
  }

  lemma {:induction false} PathLessTotal(p: seq<int>, q: seq<int>)
    ensures p == q || PathLess(p, q) || PathLess(q, p)
  {
    if p != [] && q != [] && p[0] == q[0] {
      PathLessTotal(p[1..], q[1..]);
      assert p == [p[0]] + p[1..] && q == [q[0]] + q[1..];
    }
  }

  lemma {:induction false} PathLessAfterPrefix(a: seq<int>, p: seq<int>, q: seq<int>)
    requires a <= p && a <= q
    ensures PathLess(p, q) == PathLess(p[|a|..], q[|a|..])
  {
    if a == [] {
      assert p[0..] == p && q[0..] == q;
    } else {
      PathLessAfterPrefix(a[1..], p[1..], q[1..]);
      assert p[1..][|a|-1..] == p[|a|..] && q[1..][|a|-1..] == q[|a|..];
    }
  }

  /** `i` is displayed before `j`. */
  ghost predicate Before(t: Table, i: int, j: int) {
    if Rooted(t, i) then
      Rooted(t, j) ==> PathLess(PathOf(t, i), PathOf(t, j))
    else
      !Rooted(t, j) && i < j
  }

  lemma BeforeIsStrict(t: Table, i: int, j: int, k: int)
    ensures !Before(t, i, i)
    ensures Before(t, i, j) && Before(t, j, k) ==> Before(t, i, k)
  {
    if Rooted(t, i) {
      PathLessIrreflexive(PathOf(t, i));
      if Rooted(t, j) && Rooted(t, k) && Before(t, i, j) && Before(t, j, k) {
        PathLessTransitive(PathOf(t, i), PathOf(t, j), PathOf(t, k));
      }
    }
  }

  ghost predicate InOrder(t: Table, o: seq<Message>) {
    && (forall m | m in o :: m.id in t && t[m.id] == m)
    && forall a, b | 0 <= a < b < |o| :: Before(t, o[a].id, o[b].id)
  }

  /** `o` is the thread `t` as displayed: each of its messages, in order. */
  ghost predicate IsDisplay(t: Table, o: seq<Message>) {
    InOrder(t, o) && forall i | i in t :: t[i] in o
  }

  lemma InOrderDistinct(t: Table, o: seq<Message>)
    requires InOrder(t, o)
    ensures forall a, b | 0 <= a < b < |o| :: o[a].id != o[b].id
  {
    forall a, b | 0 <= a < b < |o|
      ensures o[a].id != o[b].id
    {
      BeforeIsStrict(t, o[a].id, o[a].id, o[a].id);
    }
  }

  lemma SameFirst(t: Table, o: seq<Message>, o': seq<Message>)
    requires InOrder(t, o) && InOrder(t, o') && o != [] && o' != []
    requires o[0] in o' && o'[0] in o
    ensures o[0] == o'[0]
  {
    var k :| 0 <= k < |o'| && o'[k] == o[0];
    var j :| 0 <= j < |o| && o[j] == o'[0];
    BeforeIsStrict(t, o'[0].id, o[0].id, o'[0].id);
  }

  lemma RestWithout(o: seq<Message>, m: Message)
    requires o != [] && forall a | 0 < a < |o| :: o[a].id != o[0].id
    ensures m in o[1..] <==> m in o && m != o[0]
  {
    assert o == [o[0]] + o[1..];
  }

  /** The order leaves no choice: the same messages in order are the same list. */
  lemma {:induction false} OrderUnique(t: Table, o: seq<Message>, o': seq<Message>)
    requires InOrder(t, o) && InOrder(t, o')
    requires forall m: Message :: m in o <==> m in o'
    ensures o == o'
    decreases |o|
  {
    assert o != [] ==> o[0] in o';
    assert o' != [] ==> o'[0] in o;
    if o != [] {
      SameFirst(t, o, o');
      InOrderDistinct(t, o);
      InOrderDistinct(t, o');
      forall m: Message
        ensures m in o[1..] <==> m in o'[1..]
      {
        RestWithout(o, m);
        RestWithout(o', m);
      }
      OrderUnique(t, o[1..], o'[1..]);
      assert o == [o[0]] + o[1..] && o' == [o'[0]] + o'[1..];
    }
  }

  lemma DisplayUnique(t: Table, o: seq<Message>, o': seq<Message>)
    requires IsDisplay(t, o) && IsDisplay(t, o')
    ensures o == o'
  {
    OrderUnique(t, o, o');
  }

  /** What a display shows: every row once, and nothing else. */
  lemma DisplayIsPermutation(rows: seq<Message>, o: seq<Message>)
    requires UniqueIds(rows) && IsDisplay(TableOf(rows), o)
    ensures multiset(o) == multiset(rows) && |o| == |rows|
  {
    var t := TableOf(rows);
    InOrderDistinct(t, o);
    forall m: Message
      ensures multiset(o)[m] == multiset(rows)[m]
    {
      OccursOnce(o, m);
      OccursOnce(rows, m);
      assert m in o <==> m in rows;
    }
    SameMultisetSameLength(o, rows);
  }

  lemma SameMultisetSameLength(a: seq<Message>, b: seq<Message>)
    requires multiset(a) == multiset(b)
    ensures |a| == |b|
  {
    assert |multiset(a)| == |a|;
  }

  lemma {:induction false} OccursOnce(o: seq<Message>, m: Message)
    requires UniqueIds(o)
    ensures multiset(o)[m] == if m in o then 1 else 0
  {
    if o != [] {
      var k := |o| - 1;
      OccursOnce(o[..k], m);
      assert o == o[..k] + [o[k]];
      assert multiset(o) == multiset(o[..k]) + multiset{o[k]};
    }
  }

  lemma RootsAscend(t: Table, i: int, j: int)
    requires i in t && j in t && IsRoot(t, i) && IsRoot(t, j) && i != j
    ensures Before(t, i, j) <==> i < j
  {
    PathIs(t, [i], i);
    PathIs(t, [j], j);
  }

  lemma AnchorComesFirst(t: Table, i: int, j: int)
    requires Rooted(t, i) && IsChild(t, i, j)
    ensures Before(t, i, j)
  {
    var p := PathOf(t, i);
    PathIs(t, p + [j], j);
    PathLessAfterPrefix(p, p, p + [j]);
  }

  lemma SiblingsAscend(t: Table, a: int, i: int, j: int)
    requires Rooted(t, a) && IsChild(t, a, i) && IsChild(t, a, j) && i != j
    ensures Before(t, i, j) <==> i < j
  {
    var p := PathOf(t, a);
    PathIs(t, p + [i], i);
    PathIs(t, p + [j], j);
    PathLessAfterPrefix(p, p + [i], p + [j]);
    assert (p + [i])[|p|..] == [i] && (p + [j])[|p|..] == [j];
  }

  /** Roots ascend, the messages inserted after one anchor ascend, an anchor comes before everything
      inserted below it, and the messages on or below a cycle come last, ascending. */
  lemma DisplayReads(t: Table, i: int, j: int)
    requires Keyed(t) && i in t && j in t && i != j
    ensures IsRoot(t, i) && IsRoot(t, j) ==> (Before(t, i, j) <==> i < j)
    ensures Rooted(t, i) && IsChild(t, i, j) ==> Before(t, i, j)
    ensures forall a | IsChild(t, a, i) && IsChild(t, a, j) && Rooted(t, a) :: Before(t, i, j) <==> i < j
    ensures OnOrBelowCycle(t, j) ==> (Before(t, i, j) <==> !OnOrBelowCycle(t, i) || i < j)
  {
    if IsRoot(t, i) && IsRoot(t, j) {
      RootsAscend(t, i, j);
    }
    if Rooted(t, i) && IsChild(t, i, j) {
      AnchorComesFirst(t, i, j);
    }
    forall a | IsChild(t, a, i) && IsChild(t, a, j) && Rooted(t, a)
      ensures Before(t, i, j) <==> i < j
    {
      SiblingsAscend(t, a, i, j);
    }
    UnrootedIffOnOrBelowCycle(t, i);
    UnrootedIffOnOrBelowCycle(t, j);
  }
}
