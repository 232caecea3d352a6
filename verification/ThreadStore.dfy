/**
 The message table of one thread and the functions that list it
 (database/thread_store.py).
 */
module ThreadStore {
  import opened Wrappers
  import opened ThreadOrder
  import opened ThreadInsert

  // ----- sorting by id ---------------------------------------------------------

  predicate Ascending(ms: seq<Message>) {
    forall i, j | 0 <= i < j < |ms| :: ms[i].id < ms[j].id
  }

  function InsertById(m: Message, ms: seq<Message>): (r: seq<Message>)
    requires Ascending(ms) && forall x | x in ms :: x.id != m.id
    ensures Ascending(r) && forall x: Message :: x in r <==> x == m || x in ms
  {
    if ms == [] || m.id < ms[0].id then [m] + ms
    else
      var tail := InsertById(m, ms[1..]);
      assert forall k | 0 <= k < |tail| :: tail[k] in tail;
      assert forall x: Message :: x in ms <==> x == ms[0] || x in ms[1..];
      [ms[0]] + tail
  }

  function SortedById(ms: seq<Message>): (r: seq<Message>)
    requires UniqueIds(ms)
    ensures Ascending(r) && forall x: Message :: x in r <==> x in ms
  {
    if ms == [] then []
    else
      assert forall x: Message :: x in ms <==> x == ms[0] || x in ms[1..];
      InsertById(ms[0], SortedById(ms[1..]))
  }

  // ----- order_thread_messages ---------------------------------------------------

  /** `kids` are the rows anchored on `a`. */
  ghost predicate KidsOf(t: Table, a: int, kids: seq<Message>) {
    forall m: Message :: m in kids <==> m.id in t && t[m.id] == m && a in t && m.insertAfterId == Some(a)
  }

  function Get(children: map<int, seq<Message>>, a: int): seq<Message> {
    if a in children then children[a] else []
  }

  ghost predicate Indexes(children: map<int, seq<Message>>, t: Table) {
    forall a :: KidsOf(t, a, Get(children, a)) && UniqueIds(Get(children, a))
  }

  /** The children of `a`, in row order. */
  function Children(t: Table, rows: seq<Message>, a: int): (r: seq<Message>)
    requires UniqueIds(rows)
    ensures forall m: Message :: m in r <==> m in rows && a in t && m.insertAfterId == Some(a)
    ensures UniqueIds(r)
  {
    if rows == [] then []
    else
      var last := rows[|rows|-1];
      assert rows == rows[..|rows|-1] + [last];
      var r := Children(t, rows[..|rows|-1], a);
      if a in t && last.insertAfterId == Some(a) then r + [last] else r
  }

  function Roots(t: Table, rows: seq<Message>): (r: seq<Message>)
    requires UniqueIds(rows)
    ensures forall m: Message :: m in r <==>
              m in rows && (m.insertAfterId.None? || m.insertAfterId.value !in t)
    ensures UniqueIds(r)
  {
    if rows == [] then []
    else
      var last := rows[|rows|-1];
      assert rows == rows[..|rows|-1] + [last];
      var r := Roots(t, rows[..|rows|-1]);
      if last.insertAfterId.None? || last.insertAfterId.value !in t then r + [last] else r
  }

  /** `blk` is the display of all that hangs below the path `p` through one of `kids`. */
  ghost predicate IsForest(t: Table, p: seq<int>, kids: seq<Message>, blk: seq<Message>) {
    && InOrder(t, blk)
    && forall i | i in t :: t[i] in blk <==> Rooted(t, i) && Through(PathOf(t, i), p, kids)
  }

  ghost predicate Through(q: seq<int>, p: seq<int>, kids: seq<Message>) {
    p < q && exists m | m in kids :: q[|p|] == m.id
  }

  /** `blk` is the display of the last message of `p` and all that hangs below it. */
  ghost predicate IsBlock(t: Table, p: seq<int>, blk: seq<Message>) {
    && InOrder(t, blk)
    && forall i | i in t :: t[i] in blk <==> Rooted(t, i) && p <= PathOf(t, i)
  }

  lemma {:induction false} Snoc(s: seq<Message>, k: nat)
    requires k < |s|
    ensures s[..k+1] == s[..k] + [s[k]]
  {
  }

  lemma ForestStarts(t: Table, p: seq<int>, kids: seq<Message>)
    ensures IsForest(t, p, kids[..0], [])
  {
  }

  lemma ForestGrows(t: Table, p: seq<int>, kids: seq<Message>, k: nat, blk: seq<Message>, sub: seq<Message>)
    requires Keyed(t) && k < |kids| && Ascending(kids)
    requires IsForest(t, p, kids[..k], blk) && IsBlock(t, p + [kids[k].id], sub)
    ensures IsForest(t, p, kids[..k+1], blk + sub)
  {
    var m := kids[k];
    forall x, y | x in blk && y in sub
      ensures Before(t, x.id, y.id)
    {
      var q, r := PathOf(t, x.id), PathOf(t, y.id);
      PathLessAfterPrefix(p, q, r);
      assert r[|p|] == (p + [m.id])[|p|];
    }
    forall i | i in t
      ensures t[i] in blk + sub <==> Rooted(t, i) && Through(PathOf(t, i), p, kids[..k+1])
    {
      if Rooted(t, i) {
        ThroughGrows(PathOf(t, i), p, kids, k);
      }
    }
  }

  lemma ThroughGrows(q: seq<int>, p: seq<int>, kids: seq<Message>, k: nat)
    requires k < |kids|
    ensures Through(q, p, kids[..k+1]) <==> Through(q, p, kids[..k]) || p + [kids[k].id] <= q
  {
    Snoc(kids, k);
    assert kids[k] in kids[..k+1];
    if p < q && q[|p|] == kids[k].id {
      assert q[..|p|+1] == p + [kids[k].id];
    }
  }

  lemma BlockIsNodeAndForest(t: Table, p: seq<int>, kids: seq<Message>, blk: seq<Message>)
    requires Keyed(t) && Chain(t, p) && IsForest(t, p, kids, blk)
    requires KidsOf(t, p[|p|-1], kids)
    ensures IsBlock(t, p, [t[p[|p|-1]]] + blk)
  {
    var node := t[p[|p|-1]];
    PathIs(t, p, node.id);
    forall x | x in blk
      ensures Before(t, node.id, x.id)
    {
      PathLessAfterPrefix(p, p, PathOf(t, x.id));
    }
    forall i | i in t
      ensures t[i] in [node] + blk <==> Rooted(t, i) && p <= PathOf(t, i)
    {
      if Rooted(t, i) && p <= PathOf(t, i) {
        var q := PathOf(t, i);
        if |q| == |p| {
          assert q == p;
        } else {
          assert IsChild(t, q[|p|-1], q[|p|]);
          assert t[q[|p|]] in kids;
          assert Through(q, p, kids);
        }
      }
    }
  }

  /** The recursive `walk`: appends `node` and all that hangs below it. The path travelled so far is
      never longer than the table, which is why the walk ends even when other rows form cycles. */
  method Walk(children: map<int, seq<Message>>, node: Message, before: seq<Message>,
              ghost t: Table, ghost path: seq<int>)
    returns (ordered: seq<Message>)
    requires Keyed(t) && ChainTo(t, path, node.id) && t[node.id] == node
    requires Indexes(children, t)
    ensures before <= ordered && IsBlock(t, path, ordered[|before|..])
    decreases |t| - |path|, 1
  {
    var kids := SortedById(Get(children, node.id));
    assert KidsOf(t, node.id, kids);
    ordered := WalkEach(children, kids, before + [node], t, path);
    ghost var below := ordered[|before|+1..];
    assert (before + [node])[..|before|] == before;
    BlockIsNodeAndForest(t, path, kids, below);
    assert ordered[|before|..] == [node] + below;
  }

  /** The loop of `walk` over the sorted children. */
  method WalkEach(children: map<int, seq<Message>>, kids: seq<Message>, before: seq<Message>,
                  ghost t: Table, ghost path: seq<int>)
    returns (ordered: seq<Message>)
    requires Keyed(t) && Chain(t, path) && KidsOf(t, path[|path|-1], kids) && Ascending(kids)
    requires Indexes(children, t)
    ensures before <= ordered && IsForest(t, path, kids, ordered[|before|..])
    decreases |t| - |path|, 0
  {
    ordered := before;
    ForestStarts(t, path, kids);
    for k := 0 to |kids|
      invariant before <= ordered && IsForest(t, path, kids[..k], ordered[|before|..])
    {
      ChildExtends(t, path, kids, k);
      ghost var was := ordered;
      ordered := Walk(children, kids[k], ordered, t, path + [kids[k].id]);
      ForestGrows(t, path, kids, k, was[|before|..], ordered[|was|..]);
      assert ordered[|before|..] == was[|before|..] + ordered[|was|..];
    }
    assert kids[..|kids|] == kids;
  }

  lemma ChildExtends(t: Table, path: seq<int>, kids: seq<Message>, k: nat)
    requires Chain(t, path) && KidsOf(t, path[|path|-1], kids) && k < |kids|
    ensures t[path[|path|-1]].id == path[|path|-1] ==> kids[k].id in t && t[kids[k].id] == kids[k]
    ensures ChainTo(t, path + [kids[k].id], kids[k].id) && |path| < |t|
  {
    assert kids[k] in kids;
    assert IsChild(t, path[|path|-1], kids[k].id);
    var longer := path + [kids[k].id];
    assert forall j | 0 < j < |path| :: IsChild(t, path[j-1], path[j]);
    ChainIsShort(t, longer);
  }

  lemma RowsGrow(t: Table, rows: seq<Message>, k: nat, a: int)
    requires UniqueIds(rows) && k < |rows|
    ensures Children(t, rows[..k+1], a) ==
              if a in t && rows[k].insertAfterId == Some(a) then Children(t, rows[..k], a) + [rows[k]]
              else Children(t, rows[..k], a)
    ensures Roots(t, rows[..k+1]) ==
              if rows[k].insertAfterId.None? || rows[k].insertAfterId.value !in t then Roots(t, rows[..k]) + [rows[k]]
              else Roots(t, rows[..k])
  {
    assert rows[..k+1][..k] == rows[..k] && rows[..k+1][k] == rows[k];
  }

  /** After the first `k` rows, each anchor's list and the list of roots hold their rows so far. */
  ghost predicate Indexed(children: map<int, seq<Message>>, roots: seq<Message>, t: Table, rows: seq<Message>, k: nat)
    requires UniqueIds(rows) && k <= |rows|
  {
    roots == Roots(t, rows[..k]) && forall a :: Get(children, a) == Children(t, rows[..k], a)
  }

  /** The lists with one more row filed under its anchor. */
  function Filed(children: map<int, seq<Message>>, t: Table, row: Message): map<int, seq<Message>> {
    if row.insertAfterId.Some? && row.insertAfterId.value in t then
      children[row.insertAfterId.value := Get(children, row.insertAfterId.value) + [row]]
    else children
  }

  lemma FiledUnder(children: map<int, seq<Message>>, t: Table, row: Message, a: int)
    ensures Get(Filed(children, t, row), a) ==
              if a in t && row.insertAfterId == Some(a) then Get(children, a) + [row] else Get(children, a)
  {
  }

  lemma IndexGrows(children: map<int, seq<Message>>, roots: seq<Message>, t: Table, rows: seq<Message>, k: nat)
    requires UniqueIds(rows) && k < |rows| && Indexed(children, roots, t, rows, k)
    ensures var row := rows[k];
            Indexed(Filed(children, t, row),
                    if row.insertAfterId.Some? && row.insertAfterId.value in t then roots else roots + [row],
                    t, rows, k + 1)
  {
    RowsGrow(t, rows, k, 0);
    forall a
      ensures Get(Filed(children, t, rows[k]), a) == Children(t, rows[..k+1], a)
    {
      RowsGrow(t, rows, k, a);
      FiledUnder(children, t, rows[k], a);
      assert Get(children, a) == Children(t, rows[..k], a);
    }
  }

  lemma IndexDone(children: map<int, seq<Message>>, roots: seq<Message>, rows: seq<Message>)
    requires UniqueIds(rows) && Indexed(children, roots, TableOf(rows), rows, |rows|)
    ensures Indexes(children, TableOf(rows)) && UniqueIds(roots)
    ensures forall m: Message :: m in roots <==> m in rows && (m.insertAfterId.None? || m.insertAfterId.value !in TableOf(rows))
  {
    assert rows[..|rows|] == rows;
  }

  /** The first loop: children by anchor, and the rows without a known anchor. */
  method IndexRows(rows: seq<Message>, byId: Table) returns (children: map<int, seq<Message>>, roots: seq<Message>)
    requires UniqueIds(rows) && byId == TableOf(rows)
    ensures Indexes(children, byId) && UniqueIds(roots)
    ensures forall m: Message :: m in roots <==> m in rows && (m.insertAfterId.None? || m.insertAfterId.value !in byId)
  {
    children, roots := map[], [];
    for k := 0 to |rows|
      invariant Indexed(children, roots, byId, rows, k)
    {
      var msg := rows[k];
      IndexGrows(children, roots, byId, rows, k);
      var anchor := msg.insertAfterId;
      if anchor.Some? && anchor.value in byId {
        children := children[anchor.value := Get(children, anchor.value) + [msg]];
      } else {
        roots := roots + [msg];
      }
    }
    IndexDone(children, roots, rows);
  }

  /** The second loop: the roots and all that they reach. */
  method WalkRoots(children: map<int, seq<Message>>, roots: seq<Message>, ghost t: Table)
    returns (ordered: seq<Message>)
    requires Keyed(t) && Indexes(children, t) && Ascending(roots)
    requires forall m: Message :: m in roots <==> m.id in t && t[m.id] == m && IsRoot(t, m.id)
    ensures InOrder(t, ordered)
    ensures forall i | i in t :: t[i] in ordered <==> Rooted(t, i)
  {
    ordered := [];
    ForestStarts(t, [], roots);
    for k := 0 to |roots|
      invariant IsForest(t, [], roots[..k], ordered)
    {
      assert roots[k] in roots;
      ghost var was := ordered;
      ordered := Walk(children, roots[k], ordered, t, [roots[k].id]);
      assert [] + [roots[k].id] == [roots[k].id];
      ForestGrows(t, [], roots, k, was, ordered[|was|..]);
      assert ordered == was + ordered[|was|..];
    }
    assert roots[..|roots|] == roots;
    forall i | i in t && Rooted(t, i)
      ensures t[i] in ordered
    {
      var p := PathOf(t, i);
      assert t[p[0]] in roots;
      assert Through(p, [], roots);
    }
  }

  /** The last loop: rows the walk did not meet, in id order. */
  method AppendUnseen(all: seq<Message>, walked: seq<Message>, ghost t: Table) returns (ordered: seq<Message>)
    requires Keyed(t) && Ascending(all)
    requires forall m: Message :: m in all <==> m.id in t && t[m.id] == m
    requires InOrder(t, walked)
    requires forall i | i in t :: t[i] in walked <==> Rooted(t, i)
    ensures IsDisplay(t, ordered)
  {
    var seen := set m | m in walked :: m.id;
    assert forall i | i in t :: i in seen <==> Rooted(t, i);
    ordered := walked;
    ghost var rest: seq<Message> := [];
    for k := 0 to |all|
      invariant ordered == walked + rest
      invariant InOrder(t, rest)
      invariant forall m: Message :: m in rest <==> m in all[..k] && !Rooted(t, m.id)
    {
      var msg := all[k];
      Snoc(all, k);
      assert msg in all;
      if msg.id !in seen {
        RestGrows(t, all, k, rest);
        ordered, rest := ordered + [msg], rest + [msg];
      }
    }
    assert all[..|all|] == all;
    forall x, y | x in walked && y in rest
      ensures Before(t, x.id, y.id)
    {
    }
  }

  lemma RestGrows(t: Table, all: seq<Message>, k: nat, rest: seq<Message>)
    requires Ascending(all) && k < |all| && InOrder(t, rest)
    requires forall m | m in rest :: m in all[..k] && !Rooted(t, m.id)
    requires all[k].id in t && t[all[k].id] == all[k] && !Rooted(t, all[k].id)
    ensures InOrder(t, rest + [all[k]])
  {
    forall m | m in rest
      ensures Before(t, m.id, all[k].id)
    {
      var j :| 0 <= j < k && all[..k][j] == m;
    }
  }

  /** Linearises rows with any anchors at all: missing, on the row itself, or in a cycle. */
  method OrderThreadMessages(rows: seq<Message>) returns (ordered: seq<Message>)
    requires UniqueIds(rows)
    ensures IsDisplay(TableOf(rows), ordered)
    ensures multiset(ordered) == multiset(rows)
  {
    if rows == [] {
      return [];
    }
    var byId := TableOf(rows);
    var children, roots := IndexRows(rows, byId);
    var walked := WalkRoots(children, SortedById(roots), byId);
    ordered := AppendUnseen(SortedById(rows), walked, byId);
    DisplayIsPermutation(rows, ordered);
  }

  // ----- the stored thread ----------------------------------------------------------

  datatype StoreError = ForeignKeyViolated

  predicate HasId(rows: seq<Message>, i: int) {
    exists k | 0 <= k < |rows| :: rows[k].id == i
  }

  /** Ids grow, and every stored anchor is a stored message: the foreign key. */
  ghost predicate Stored(rows: seq<Message>, lastId: nat) {
    && Ascending(rows)
    && (forall k | 0 <= k < |rows| :: 0 < rows[k].id <= lastId)
    && forall k | 0 <= k < |rows| :: Anchored(rows, k)
  }

  predicate Anchored(rows: seq<Message>, k: int)
    requires 0 <= k < |rows|
  {
    rows[k].insertAfterId.Some? ==>
      rows[k].insertAfterId.value <= rows[k].id && HasId(rows, rows[k].insertAfterId.value)
  }

  lemma StoredGrows(rows: seq<Message>, lastId: nat, m: Message)
    requires Stored(rows, lastId) && m.id == lastId + 1
    requires m.insertAfterId.Some? ==> m.insertAfterId.value == m.id || HasId(rows, m.insertAfterId.value)
    ensures Stored(rows + [m], m.id)
  {
    var rows' := rows + [m];
    assert rows'[|rows|] == m;
    forall k | 0 <= k < |rows'|
      ensures Anchored(rows', k)
    {
      if k < |rows| {
        assert Anchored(rows, k);
      }
      if rows'[k].insertAfterId.Some? && HasId(rows, rows'[k].insertAfterId.value) {
        var j :| 0 <= j < |rows| && rows[j].id == rows'[k].insertAfterId.value;
        assert rows'[j] == rows[j];
      }
    }
  }

  /** Tables with the same messages are the same. */
  lemma SameMessages(t: Table, u: Table)
    requires Keyed(t) && Keyed(u)
    requires forall x: Message :: x.id in t && t[x.id] == x <==> x.id in u && u[x.id] == x
    ensures t == u
  {
    forall i
      ensures i in t <==> i in u
      ensures i in t ==> t[i] == u[i]
    {
      assert i in t ==> t[i].id == i;
      assert i in u ==> u[i].id == i;
    }
  }

  lemma NextIsNew(rows: seq<Message>, lastId: nat, m: Message)
    requires Stored(rows, lastId) && m.id == lastId + 1
    ensures UniqueIds(rows + [m]) && m.id !in TableOf(rows)
  {
    var rows' := rows + [m];
    forall i, j | 0 <= i < j < |rows'|
      ensures rows'[i].id != rows'[j].id
    {
      assert rows'[i] == rows[i];
      assert j < |rows| ==> rows'[j] == rows[j];
    }
  }

  lemma TableGrows(rows: seq<Message>, lastId: nat, m: Message)
    requires Stored(rows, lastId) && m.id == lastId + 1
    ensures UniqueIds(rows + [m]) && TableOf(rows + [m]) == TableOf(rows)[m.id := m]
  {
    NextIsNew(rows, lastId, m);
    var t, u := TableOf(rows + [m]), TableOf(rows)[m.id := m];
    forall x: Message
      ensures x.id in t && t[x.id] == x <==> x.id in u && u[x.id] == x
    {
      assert x in rows + [m] <==> x in rows || x == m;
      assert x.id in TableOf(rows) && TableOf(rows)[x.id] == x <==> x in rows;
    }
    SameMessages(t, u);
  }

  lemma NewestRow(rows: seq<Message>, lastId: nat, m: Message)
    requires Stored(rows, lastId) && m.id == lastId + 1
    ensures Newest(TableOf(rows), m)
  {
    var t := TableOf(rows);
    forall i | i in t
      ensures i < m.id && t[i].insertAfterId != Some(m.id)
    {
      var k :| 0 <= k < |rows| && rows[k] == t[i];
      assert Anchored(rows, k);
      assert !HasId(rows, m.id);
    }
  }

  lemma RowIsStored(rows: seq<Message>, k: nat)
    requires UniqueIds(rows) && k < |rows|
    ensures rows[k].id in TableOf(rows) && TableOf(rows)[rows[k].id] == rows[k]
  {
    assert rows[k] in rows;
  }

  /** Only a message anchored on itself can keep a stored message from being reached. */
  lemma {:induction false} StoredIsRooted(rows: seq<Message>, lastId: nat, k: nat)
    requires Stored(rows, lastId) && k < |rows|
    requires forall j | 0 <= j < |rows| :: rows[j].insertAfterId != Some(rows[j].id)
    ensures Rooted(TableOf(rows), rows[k].id)
  {
    var t, m := TableOf(rows), rows[k];
    RowIsStored(rows, k);
    if m.insertAfterId.None? {
      PathIs(t, [m.id], m.id);
    } else {
      assert Anchored(rows, k);
      var j :| 0 <= j < |rows| && rows[j].id == m.insertAfterId.value;
      RowIsStored(rows, j);
      StoredIsRooted(rows, lastId, j);
      ChildPath(t, rows[j].id, m.id);
    }
  }

  /** Listing a thread before and after one insertion below a reachable anchor: the new message stands
      right behind the anchor's block, every other message keeps its place relative to the others. */
  lemma InsertThenList(rows: seq<Message>, lastId: nat, m: Message, a: int, o: seq<Message>, o': seq<Message>)
    returns (s: nat, e: nat)
    requires Stored(rows, lastId) && m.id == lastId + 1 && m.insertAfterId == Some(a)
    requires Rooted(TableOf(rows), a)
    requires IsDisplay(TableOf(rows), o)
    requires UniqueIds(rows + [m]) && IsDisplay(TableOf(rows + [m]), o')
    ensures s < e <= |o| && o[s].id == a
    ensures forall k | 0 <= k < |o| :: s <= k < e <==> Under(TableOf(rows), a, o[k].id)
    ensures o' == o[..e] + [m] + o[e..]
  {
    TableGrows(rows, lastId, m);
    NewestRow(rows, lastId, m);
    s, e := InsertFollowsBlock(TableOf(rows), o, m, a);
    DisplayUnique(TableOf(rows + [m]), o', o[..e] + [m] + o[e..]);
  }

  class ThreadDb {
    var rows: seq<Message>
    var lastId: nat

    ghost predicate Valid()
      reads this
    {
      Stored(rows, lastId)
    }

    ghost function Contents(): (t: Table)
      reads this
      requires Valid()
    {
      TableOf(rows)
    }

    constructor ()
      ensures Valid() && rows == [] && lastId == 0
    {
      rows, lastId := [], 0;
    }

    /** An anchor must be a stored message, or the very row being written: SQLite checks the key once
        the row is there. A refused statement changes nothing. */
    method InsertThreadMessage(role: string, content: string, provider: Option<string>, messageType: string,
                               insertAfterId: Option<int>)
      returns (r: Result<int, StoreError>)
      requires Valid()
      modifies this
      ensures Valid()
      ensures r.Err? <==>
              insertAfterId.Some? && insertAfterId.value != old(lastId) + 1 && !HasId(old(rows), insertAfterId.value)
      ensures r.Err? ==> rows == old(rows) && lastId == old(lastId)
      ensures r.Ok? ==>
                var m := Message(old(lastId) + 1, role, provider, messageType, content, insertAfterId);
                && r.value == m.id == lastId
                && rows == old(rows) + [m]
    {
      var id := lastId + 1;
      if insertAfterId.Some? && insertAfterId.value != id && !HasId(rows, insertAfterId.value) {
        return Err(ForeignKeyViolated);
      }
      var m := Message(id, role, provider, messageType, content, insertAfterId);
      StoredGrows(rows, lastId, m);
      rows, lastId := rows + [m], id;
      return Ok(id);
    }

    method ListThreadMessages() returns (ordered: seq<Message>)
      requires Valid()
      ensures IsDisplay(Contents(), ordered)
      ensures multiset(ordered) == multiset(rows)
    {
      ordered := OrderThreadMessages(rows);
    }

    /** The thread up to and including the anchor; all of it when there is no such anchor. */
    method ListThreadMessagesUntil(anchor: Option<int>) returns (result: seq<Message>)
      requires Valid()
      ensures exists ordered :: IsDisplay(Contents(), ordered) && IsCut(Contents(), ordered, anchor, result)
    {
      var ordered := ListThreadMessages();
      if anchor.None? {
        return ordered;
      }
      result := CutAt(ordered, anchor.value);
      if HasId(ordered, anchor.value) {
        ghost var k :| 0 <= k < |ordered| && ordered[k].id == anchor.value && result == ordered[..k+1];
        CutIsCut(Contents(), ordered, k);
      } else {
        AbsentIsWhole(Contents(), ordered, anchor.value);
      }
    }
  }

  /** The loop of `list_thread_messages_until`. */
  method CutAt(ordered: seq<Message>, anchor: int) returns (result: seq<Message>)
    ensures if HasId(ordered, anchor) then
              exists k :: 0 <= k < |ordered| && ordered[k].id == anchor && result == ordered[..k+1]
            else
              result == ordered
  {
    result := [];
    for k := 0 to |ordered|
      invariant result == ordered[..k]
      invariant forall j | 0 <= j < k :: ordered[j].id != anchor
    {
      result := result + [ordered[k]];
      if ordered[k].id == anchor {
        return;
      }
    }
  }

  /** The whole thread when the anchor is absent, otherwise a prefix ending at the anchor; if a root
      reaches the anchor, with all of its ancestors and nothing inserted below it. */
  ghost predicate IsCut(t: Table, ordered: seq<Message>, anchor: Option<int>, result: seq<Message>) {
    if anchor.None? || anchor.value !in t then
      result == ordered
    else
      && 0 < |result| <= |ordered| && result == ordered[..|result|]
      && result[|result|-1] == t[anchor.value]
      && (Rooted(t, anchor.value) ==>
            && (forall i | i in PathOf(t, anchor.value) :: i in t && t[i] in result)
            && forall m | m in result && m.id != anchor.value :: !Under(t, anchor.value, m.id))
  }

  lemma CutIsCut(t: Table, ordered: seq<Message>, k: nat)
    requires Keyed(t) && IsDisplay(t, ordered) && k < |ordered|
    ensures IsCut(t, ordered, Some(ordered[k].id), ordered[..k+1])
  {
    assert ordered[k] in ordered;
    if Rooted(t, ordered[k].id) {
      CutKeepsAncestors(t, ordered, k);
    }
  }

  lemma AbsentIsWhole(t: Table, ordered: seq<Message>, anchor: int)
    requires Keyed(t) && IsDisplay(t, ordered) && !HasId(ordered, anchor)
    ensures IsCut(t, ordered, Some(anchor), ordered)
  {
    forall i | i in t
      ensures i != anchor
    {
      var j :| 0 <= j < |ordered| && ordered[j] == t[i];
    }
  }
}
