/**
 Keyset pagination of an organisation's projects (services/project_library.py,
 services/project_service.py): one page over a fixed list, and a walk over many
 pages while the projects change underneath.
 */
module Pagination {
  import opened Wrappers

  /** Instants count microseconds; a project id is a 128-bit number. */
  datatype Key = Key(ts: int, id: int)

  predicate Less(a: Key, b: Key) {
    a.ts < b.ts || (a.ts == b.ts && a.id < b.id)
  }

  predicate Past(k: Key, cursor: Option<Key>) {
    cursor.Some? ==> Less(k, cursor.value)
  }

  // ----- one page over a list --------------------------------------------------------

  datatype Row<T> = Row(key: Key, payload: T)

  ghost predicate Descending<T(!new)>(rows: seq<Row<T>>) {
    forall i, j | 0 <= i < j < |rows| :: Less(rows[j].key, rows[i].key)
  }

  /** The rows the SQL predicate selects, in list order. */
  function Selected<T>(rows: seq<Row<T>>, cursor: Option<Key>): seq<Row<T>> {
    if rows == [] then []
    else (if Past(rows[0].key, cursor) then [rows[0]] else []) + Selected(rows[1..], cursor)
  }

  /** The rows from the first selected one on. */
  function From<T>(rows: seq<Row<T>>, cursor: Option<Key>): seq<Row<T>> {
    if rows == [] || Past(rows[0].key, cursor) then rows else From(rows[1..], cursor)
  }

  function Payloads<T>(rows: seq<Row<T>>): (r: seq<T>)
    ensures |r| == |rows| && forall k | 0 <= k < |r| :: r[k] == rows[k].payload
  {
    seq(|rows|, k requires 0 <= k < |rows| => rows[k].payload)
  }

  function Take<T>(s: seq<T>, limit: int): seq<T> {
    if limit <= 0 then [] else if limit < |s| then s[..limit] else s
  }

  /** The loop with its `started` flag. A negative limit behaves like zero: it cuts one row to none. */
  method KeysetAfter<T(!new)>(rows: seq<Row<T>>, cursor: Option<Key>, limit: int) returns (page: seq<T>, more: bool)
    ensures page == Take(Payloads(From(rows, cursor)), limit)
    ensures more <==> From(rows, cursor) != [] && |From(rows, cursor)| > limit
  {
    var selected: seq<T> := [];
    var started := cursor.None?;
    ghost var first := FromIsSuffix(rows, cursor);
    for k := 0 to |rows|
      invariant if started then Collects(rows, first, k, selected) else k <= first && cursor.Some? && selected == []
      invariant selected == [] || |selected| <= limit
    {
      var row := rows[k];
      if !started {
        if row.key.ts < cursor.value.ts || (row.key.ts == cursor.value.ts && row.key.id < cursor.value.id) {
          started := true;
        } else {
          continue;
        }
      }
      selected := selected + [row.payload];
      if |selected| > limit {
        CutCollected(rows, cursor, first, k + 1, selected, limit);
        return if limit <= 0 then [] else selected[..limit], true;
      }
    }
    AllCollected(rows, cursor, first, selected);
    return selected, false;
  }

  /** `selected` holds the payloads from `first` up to `k`. */
  ghost predicate Collects<T>(rows: seq<Row<T>>, first: nat, k: nat, selected: seq<T>) {
    first <= k <= |rows| && |selected| == k - first && forall j | 0 <= j < k - first :: selected[j] == rows[first+j].payload
  }

  lemma CutCollected<T>(rows: seq<Row<T>>, cursor: Option<Key>, first: nat, k: nat, selected: seq<T>, limit: int)
    requires Collects(rows, first, k, selected) && From(rows, cursor) == rows[first..] && |selected| > limit && selected != []
    ensures Take(Payloads(From(rows, cursor)), limit) == if limit <= 0 then [] else selected[..limit]
    ensures From(rows, cursor) != [] && |From(rows, cursor)| > limit
  {
    var all := Payloads(rows[first..]);
    assert forall j | 0 <= j < |selected| :: all[j] == rows[first+j].payload == selected[j];
    if limit > 0 {
      assert Take(all, limit) == selected[..limit];
    }
  }

  lemma AllCollected<T>(rows: seq<Row<T>>, cursor: Option<Key>, first: nat, selected: seq<T>)
    requires first <= |rows| && From(rows, cursor) == rows[first..]
    requires Collects(rows, first, |rows|, selected) || (first == |rows| && selected == [])
    ensures Payloads(From(rows, cursor)) == selected
  {
  }

  /** Dropping up to the first selected row is filtering exactly when nothing behind it is rejected. */
  lemma {:induction false} FromIsSelectedIff<T(!new)>(rows: seq<Row<T>>, cursor: Option<Key>)
    ensures From(rows, cursor) == Selected(rows, cursor) <==>
            forall r | r in From(rows, cursor) :: Past(r.key, cursor)
  {
    if rows != [] {
      FromIsSelectedIff(rows[1..], cursor);
      SelectedAll(rows, cursor);
      if !Past(rows[0].key, cursor) {
        assert From(rows, cursor) == From(rows[1..], cursor);
        assert Selected(rows, cursor) == Selected(rows[1..], cursor);
      }
    }
  }

  lemma {:induction false} SelectedAll<T(!new)>(rows: seq<Row<T>>, cursor: Option<Key>)
    ensures Selected(rows, cursor) == rows <==> forall r | r in rows :: Past(r.key, cursor)
    ensures |Selected(rows, cursor)| <= |rows|
    ensures forall r | r in Selected(rows, cursor) :: Past(r.key, cursor)
  {
    if rows != [] {
      SelectedAll(rows[1..], cursor);
      assert rows == [rows[0]] + rows[1..];
      assert Selected(rows, cursor) == rows ==> Selected(rows, cursor)[1..] == rows[1..];
    }
  }

  lemma {:induction false} FromIsSuffix<T(!new)>(rows: seq<Row<T>>, cursor: Option<Key>) returns (i: nat)
    ensures i <= |rows| && From(rows, cursor) == rows[i..]
    ensures i < |rows| ==> Past(rows[i].key, cursor)
    ensures forall k | 0 <= k < i :: !Past(rows[k].key, cursor)
  {
    if rows == [] || Past(rows[0].key, cursor) {
      i := 0;
    } else {
      var j := FromIsSuffix(rows[1..], cursor);
      i := j + 1;
      assert rows[1..][j..] == rows[i..];
      forall k | 0 <= k < i
        ensures !Past(rows[k].key, cursor)
      {
        assert k > 0 ==> rows[k] == rows[1..][k-1];
      }
    }
  }

  /** On a list in strictly descending order, paging is: filter by the SQL predicate, then cut. */
  lemma {:induction false} PageIsFilterThenLimit<T(!new)>(rows: seq<Row<T>>, cursor: Option<Key>)
    requires Descending(rows)
    ensures From(rows, cursor) == Selected(rows, cursor)
  {
    var i := FromIsSuffix(rows, cursor);
    FromIsSelectedIff(rows, cursor);
    forall r | r in From(rows, cursor)
      ensures Past(r.key, cursor)
    {
      var k :| i <= k < |rows| && rows[k] == r;
    }
  }

  datatype Page<T> = Page(rows: seq<Row<T>>, more: bool)

  function PageOf<T>(rows: seq<Row<T>>, cursor: Option<Key>, limit: nat): Page<T> {
    Page(Take(From(rows, cursor), limit), |From(rows, cursor)| > limit)
  }

  /** All pages, each one starting behind the last row of the one before. */
  function Pages<T>(rows: seq<Row<T>>, cursor: Option<Key>, limit: nat): (r: seq<Page<T>>)
    requires limit > 0
    ensures r != []
    decreases |From(rows, cursor)|, 1
  {
    var p := PageOf(rows, cursor, limit);
    if !p.more then [p]
    else
      var next := Some(p.rows[limit-1].key);
      if |From(rows, next)| < |From(rows, cursor)| then [p] + Pages(rows, next, limit) else [p]
  }

  function Flatten<T>(pages: seq<Page<T>>): seq<Row<T>> {
    if pages == [] then [] else pages[0].rows + Flatten(pages[1..])
  }

  lemma FromBehind<T(!new)>(rows: seq<Row<T>>, cursor: Option<Key>, n: nat)
    requires Descending(rows) && n < |From(rows, cursor)|
    ensures From(rows, Some(From(rows, cursor)[n].key)) == From(rows, cursor)[n+1..]
  {
    var i := FromIsSuffix(rows, cursor);
    var next := Some(rows[i+n].key);
    var j := FromIsSuffix(rows, next);
    assert j == i + n + 1 by {
      assert !Past(rows[i+n].key, next);
      assert i + n + 1 < |rows| ==> Past(rows[i+n+1].key, next);
    }
  }

  lemma PrependPage<T>(p: Page<T>, rest: seq<Page<T>>)
    ensures Flatten([p] + rest) == p.rows + Flatten(rest)
    ensures [p] == [p] + []
  {
    assert ([p] + rest)[1..] == rest;
  }

  /** The pages of a descending list, one after the other, are the list, and exactly the last one has
      nothing more. */
  lemma {:induction false} PagesCoverList<T(!new)>(rows: seq<Row<T>>, cursor: Option<Key>, limit: nat)
    requires Descending(rows) && limit > 0
    ensures Flatten(Pages(rows, cursor, limit)) == From(rows, cursor)
    ensures forall k | 0 <= k < |Pages(rows, cursor, limit)| ::
              Pages(rows, cursor, limit)[k].more <==> k < |Pages(rows, cursor, limit)| - 1
    decreases |From(rows, cursor)|
  {
    var from := From(rows, cursor);
    var p := PageOf(rows, cursor, limit);
    if p.more {
      FromBehind(rows, cursor, limit - 1);
      var next := Some(from[limit-1].key);
      PagesCoverList(rows, next, limit);
      var rest := Pages(rows, next, limit);
      PrependPage(p, rest);
      assert from == from[..limit] + from[limit..];
    } else {
      PrependPage(p, []);
      assert p.rows + [] == from;
    }
  }

  // ----- the page size -----------------------------------------------------------------

  const ABSOLUTE_MAX_PAGE := 200
  const DEFAULT_PAGE := 50
  const DEFAULT_MAX := 100

  function Min(a: int, b: int): int { if a < b then a else b }

  function Max(a: int, b: int): int { if a > b then a else b }

  datatype Bounds = Bounds(standard: int, maximum: int)

  /** The two numbers come from the environment, where they may be missing or anything. */
  function PageBounds(envMax: Option<int>, envSize: Option<int>): Bounds {
    var maximum := Min(ABSOLUTE_MAX_PAGE, Max(1, if envMax.Some? then envMax.value else DEFAULT_MAX));
    Bounds(Min(maximum, Max(1, if envSize.Some? then envSize.value else DEFAULT_PAGE)), maximum)
  }

  function ClampPageLimit(raw: Option<int>, b: Bounds): int {
    if raw.None? then b.standard else Max(1, Min(raw.value, b.maximum))
  }

  /** Whatever the environment and the caller say, a page has 1 to 200 rows; a limit in range stands, one out of
      range becomes the nearest in range, and none asks for the standard size. */
  lemma PageIsBounded(raw: Option<int>, envMax: Option<int>, envSize: Option<int>)
    ensures var b := PageBounds(envMax, envSize);
            && 1 <= ClampPageLimit(raw, b) <= b.maximum <= 200
            && (raw.None? ==> ClampPageLimit(raw, b) == b.standard)
            && (raw.Some? && 1 <= raw.value <= b.maximum ==> ClampPageLimit(raw, b) == raw.value)
            && (raw.Some? && raw.value < 1 ==> ClampPageLimit(raw, b) == 1)
            && (raw.Some? && raw.value > b.maximum ==> ClampPageLimit(raw, b) == b.maximum)
            && ClampPageLimit(Some(ClampPageLimit(raw, b)), b) == ClampPageLimit(raw, b)
  {
  }

  /** Unset, the environment stands for pages of 50 and at most 100 rows; what it sets stands when it is in range. */
  lemma EnvironmentBounds(envMax: Option<int>, envSize: Option<int>)
    ensures PageBounds(None, None) == Bounds(50, 100)
    ensures var b := PageBounds(envMax, envSize);
            && (envMax.Some? && 1 <= envMax.value <= 200 ==> b.maximum == envMax.value)
            && (envMax.None? ==> b.maximum == 100)
            && (envSize.Some? && 1 <= envSize.value <= b.maximum ==> b.standard == envSize.value)
            && (envSize.None? && b.maximum >= 50 ==> b.standard == 50)
            && 1 <= b.standard <= b.maximum
  {
  }

  // ----- the projects and one page of them -----------------------------------------------

  datatype Project = Project(org: int, updatedAt: int)

  /** The stored projects, and every id ever given to one; an id is never given twice. */
  datatype Store = Store(db: map<int, Project>, used: set<int>)

  predicate Listed(s: Store, org: int, k: Key) {
    k.id in s.db && s.db[k.id] == Project(org, k.ts)
  }

  ghost predicate DescendingKeys(keys: seq<Key>) {
    forall i, j | 0 <= i < j < |keys| :: Less(keys[j], keys[i])
  }

  /** What the statement of `build_project_list_stmt` fetches: the greatest `n` selected keys, descending. */
  ghost predicate Fetched(s: Store, org: int, cursor: Option<Key>, n: nat, keys: seq<Key>) {
    && DescendingKeys(keys)
    && |keys| <= n
    && (forall k | k in keys :: Listed(s, org, k) && Past(k, cursor))
    && forall k | Listed(s, org, k) && Past(k, cursor) && k !in keys :: |keys| == n && forall f | f in keys :: Less(k, f)
  }

  /** The page of `list_projects` and the cursor for the next one, from one row more than the page holds. */
  function ListProjects(fetched: seq<Key>, limit: nat): (seq<Key>, Option<Key>)
    requires limit > 0
  {
    if |fetched| > limit then (fetched[..limit], Some(fetched[limit-1])) else (fetched, None)
  }

  /** A page holds what is listed between its cursors, all of it. */
  lemma PageIsRange(s: Store, org: int, cursor: Option<Key>, limit: nat, fetched: seq<Key>)
    requires limit > 0 && Fetched(s, org, cursor, limit + 1, fetched)
    ensures var (page, next) := ListProjects(fetched, limit);
            && DescendingKeys(page) && |page| <= limit
            && (forall k :: k in page <==> Listed(s, org, k) && Past(k, cursor) && !(next.Some? && Less(k, next.value)))
            && (next.Some? ==> |page| == limit && page[limit-1] == next.value && exists k :: Listed(s, org, k) && Past(k, next))
  {
    var (page, next) := ListProjects(fetched, limit);
    assert forall i | 0 <= i < |page| :: page[i] == fetched[i] && page[i] in fetched;
    assert next.Some? ==> next.value in fetched;
    forall k
      ensures k in page <==> Listed(s, org, k) && Past(k, cursor) && !(next.Some? && Less(k, next.value))
    {
      if k in fetched {
        var i :| 0 <= i < |fetched| && fetched[i] == k;
        assert i < |page| ==> k in page;
      }
    }
    if next.Some? {
      assert fetched[limit] in fetched;
      assert Listed(s, org, fetched[limit]) && Past(fetched[limit], next);
    }
  }

  /** `f` is the greatest `n` of `all`. */
  ghost predicate IsTop(all: seq<Key>, n: nat, f: seq<Key>) {
    && (forall k | k in f :: k in all)
    && (forall k | k in all && k !in f :: |f| == n && forall g | g in f :: Less(k, g))
  }

  lemma TopStarts(all: seq<Key>, n: nat, f: seq<Key>)
    requires DescendingKeys(all) && DescendingKeys(f) && f != [] && IsTop(all, n, f)
    ensures all != [] && f[0] == all[0]
  {
    assert f[0] in f;
    var j :| 0 <= j < |all| && all[j] == f[0];
    assert all[0] in all;
    assert j > 0 ==> Less(all[j], all[0]);
    assert all[0] in f;
    var i :| 0 <= i < |f| && f[i] == all[0];
    assert i > 0 ==> Less(f[i], f[0]);
  }

  lemma TopContinues(all: seq<Key>, n: nat, f: seq<Key>)
    requires DescendingKeys(all) && DescendingKeys(f) && f != [] && n > 0 && IsTop(all, n, f)
    ensures all != [] && f[0] == all[0] && IsTop(all[1..], n - 1, f[1..])
  {
    TopStarts(all, n, f);
    forall k | k in f[1..]
      ensures k in all[1..]
    {
      var i :| 0 < i < |f| && f[i] == k;
      assert Less(f[i], f[0]) && k in f;
    }
    forall k | k in all[1..] && k !in f[1..]
      ensures |f[1..]| == n - 1 && forall g | g in f[1..] :: Less(k, g)
    {
      var i :| 0 < i < |all| && all[i] == k;
      assert Less(all[i], all[0]) && k in all;
      assert k !in f;
    }
  }

  lemma TakeContinues(all: seq<Key>, n: nat)
    requires all != [] && n > 0
    ensures Take(all, n) == [all[0]] + Take(all[1..], n - 1)
  {
  }

  lemma {:induction false} TopIsPrefix(all: seq<Key>, n: nat, f: seq<Key>)
    requires DescendingKeys(all) && DescendingKeys(f) && |f| <= n && IsTop(all, n, f)
    ensures f == Take(all, n)
    decreases |f|
  {
    if f != [] {
      TopContinues(all, n, f);
      TopIsPrefix(all[1..], n - 1, f[1..]);
      TakeContinues(all, n);
      assert f == [f[0]] + f[1..];
    } else {
      assert all != [] ==> all[0] in all;
    }
  }

  /** The rows list exactly the projects of the organisation, each with its key as payload. */
  ghost predicate Lists(rows: seq<Row<Key>>, s: Store, org: int) {
    && (forall r | r in rows :: r.payload == r.key)
    && forall k :: Listed(s, org, k) <==> Row(k, k) in rows
  }

  lemma PastFromThere<T(!new)>(rows: seq<Row<T>>, cursor: Option<Key>, i: nat, j: nat)
    requires Descending(rows) && i <= j < |rows| && Past(rows[i].key, cursor)
    ensures Past(rows[j].key, cursor)
  {
  }

  lemma SelectedIsListed(s: Store, org: int, cursor: Option<Key>, rows: seq<Row<Key>>, i: nat, j: nat)
    requires Descending(rows) && Lists(rows, s, org) && i <= j < |rows| && Past(rows[i].key, cursor)
    ensures Listed(s, org, rows[j].key) && Past(rows[j].key, cursor) && rows[j].payload == rows[j].key
  {
    assert rows[j] in rows;
    assert rows[j] == Row(rows[j].key, rows[j].key);
    PastFromThere(rows, cursor, i, j);
  }

  lemma SelectedKeys(s: Store, org: int, cursor: Option<Key>, rows: seq<Row<Key>>, k: Key)
    requires Descending(rows) && Lists(rows, s, org)
    ensures k in Payloads(From(rows, cursor)) <==> Listed(s, org, k) && Past(k, cursor)
  {
    var all := Payloads(From(rows, cursor));
    var i := FromIsSuffix(rows, cursor);
    if k in all {
      var j :| 0 <= j < |all| && all[j] == k;
      SelectedIsListed(s, org, cursor, rows, i, i + j);
    }
    if Listed(s, org, k) && Past(k, cursor) {
      var j :| 0 <= j < |rows| && rows[j] == Row(k, k);
      assert all[j-i] == k;
    }
  }

  lemma FromDescends(rows: seq<Row<Key>>, cursor: Option<Key>)
    requires Descending(rows) && forall r | r in rows :: r.payload == r.key
    ensures DescendingKeys(Payloads(From(rows, cursor)))
  {
    var i := FromIsSuffix(rows, cursor);
    var all := Payloads(From(rows, cursor));
    forall a, b | 0 <= a < b < |all|
      ensures Less(all[b], all[a])
    {
      assert rows[i+a] in rows && rows[i+b] in rows;
    }
  }

  /** The statement and `keyset_after` cut the same page from the same projects. */
  lemma StatementIsKeysetAfter(s: Store, org: int, cursor: Option<Key>, limit: nat, rows: seq<Row<Key>>, fetched: seq<Key>)
    requires limit > 0 && Descending(rows) && Lists(rows, s, org)
    requires Fetched(s, org, cursor, limit + 1, fetched)
    ensures ListProjects(fetched, limit).0 == Take(Payloads(From(rows, cursor)), limit)
    ensures ListProjects(fetched, limit).1.Some? <==> |From(rows, cursor)| > limit
  {
    var all := Payloads(From(rows, cursor));
    FromDescends(rows, cursor);
    forall k
      ensures k in all <==> Listed(s, org, k) && Past(k, cursor)
    {
      SelectedKeys(s, org, cursor, rows, k);
    }
    TopIsPrefix(all, limit + 1, fetched);
  }

  // ----- projects that change between the pages ------------------------------------------------

  datatype Op = Insert(id: int, org: int, at: int) | Delete(id: int) | Touch(id: int, at: int)

  /** Ids are fresh, and a touched project is not dated back. */
  predicate Allowed(s: Store, op: Op) {
    match op
    case Insert(id, _, _) => id !in s.used
    case Delete(_) => true
    case Touch(id, at) => id in s.db ==> s.db[id].updatedAt <= at
  }

  function Apply(s: Store, op: Op): Store {
    match op
    case Insert(id, org, at) => Store(s.db[id := Project(org, at)], s.used + {id})
    case Delete(id) => s.(db := s.db - {id})
    case Touch(id, at) => if id in s.db then s.(db := s.db[id := s.db[id].(updatedAt := at)]) else s
  }

  /** What an operation does: a new project is listed, a deleted one is not, a touched one has its new date, and all
      other projects stay as they are. */
  lemma OpDoes(s: Store, op: Op)
    ensures match op
            case Insert(id, org, at) => Listed(Apply(s, op), org, Key(at, id)) && id in Apply(s, op).used
            case Delete(id) => id !in Apply(s, op).db
            case Touch(id, at) => id in s.db ==> Listed(Apply(s, op), s.db[id].org, Key(at, id))
    ensures forall other | other != op.id ::
              && (other in Apply(s, op).db <==> other in s.db)
              && (other in s.db ==> Apply(s, op).db[other] == s.db[other])
  {
  }

  /** Any number of operations, one after the other. */
  ghost predicate Becomes(s: Store, ops: seq<Op>, t: Store)
    decreases |ops|
  {
    if ops == [] then s == t else Allowed(s, ops[0]) && Becomes(Apply(s, ops[0]), ops[1..], t)
  }

  /** What later states have in common: dates do not fall, deleted projects do not return. */
  ghost predicate Later(s: Store, t: Store) {
    && s.db.Keys <= s.used && t.db.Keys <= t.used && s.used <= t.used
    && (forall id | id in s.db && id in t.db :: s.db[id].org == t.db[id].org && s.db[id].updatedAt <= t.db[id].updatedAt)
    && forall id | id in s.used && id in t.db :: id in s.db
  }

  lemma {:induction false} OpsLeadLater(s: Store, ops: seq<Op>, t: Store)
    requires s.db.Keys <= s.used && Becomes(s, ops, t)
    ensures Later(s, t)
    decreases |ops|
  {
    if ops != [] {
      OpsLeadLater(Apply(s, ops[0]), ops[1..], t);
    }
  }

  lemma LaterTransitive(s: Store, t: Store, u: Store)
    requires Later(s, t) && Later(t, u)
    ensures Later(s, u)
  {
  }

  /** One fetch of a walk: the projects at that moment, the cursor and the limit used, the page and the next
      cursor. */
  datatype Visit = Visit(store: Store, cursor: Option<Key>, limit: nat, page: seq<Key>, next: Option<Key>)

  ghost predicate IsVisit(v: Visit, org: int) {
    && v.limit > 0
    && exists fetched :: Fetched(v.store, org, v.cursor, v.limit + 1, fetched) && (v.page, v.next) == ListProjects(fetched, v.limit)
  }

  /** Fetches that follow the cursors from the first page on, whatever happens to the projects in between. */
  ghost predicate IsChain(w: seq<Visit>, org: int) {
    && |w| > 0 && w[0].cursor == None
    && (forall k | 0 <= k < |w| :: IsVisit(w[k], org))
    && forall k | 0 < k < |w| :: Follows(w[k-1], w[k])
  }

  predicate Follows(v: Visit, v': Visit) {
    v.next.Some? && v'.cursor == v.next
  }

  /** A chain while projects are inserted, touched and deleted. */
  ghost predicate IsWalk(w: seq<Visit>, org: int) {
    && IsChain(w, org) && w[0].store.db.Keys <= w[0].store.used
    && forall k | 0 < k < |w| :: Changes(w[k-1].store, w[k].store)
  }

  ghost predicate Changes(s: Store, t: Store) {
    exists ops :: Becomes(s, ops, t)
  }

  lemma {:induction false} WalkLater(w: seq<Visit>, org: int, i: nat, j: nat)
    requires IsWalk(w, org) && i <= j < |w|
    ensures w[i].store.db.Keys <= w[i].store.used && Later(w[i].store, w[j].store)
    decreases j
  {
    if j > 0 {
      WalkLater(w, org, if i < j then i else j - 1, j - 1);
      WalkLater(w, org, j - 1, j - 1);
      assert Changes(w[j-1].store, w[j].store);
      var ops :| Becomes(w[j-1].store, ops, w[j].store);
      OpsLeadLater(w[j-1].store, ops, w[j].store);
      if i < j {
        LaterTransitive(w[i].store, w[j-1].store, w[j].store);
      }
    }
  }

  lemma VisitIsRange(v: Visit, org: int)
    requires IsVisit(v, org)
    ensures DescendingKeys(v.page) && |v.page| <= v.limit
    ensures forall k :: k in v.page <==> Listed(v.store, org, k) && Past(k, v.cursor) && !(v.next.Some? && Less(k, v.next.value))
    ensures v.next.Some? ==> |v.page| == v.limit && v.page[v.limit-1] == v.next.value
  {
    var fetched :| Fetched(v.store, org, v.cursor, v.limit + 1, fetched) && (v.page, v.next) == ListProjects(fetched, v.limit);
    PageIsRange(v.store, org, v.cursor, v.limit, fetched);
  }

  /** Cursors descend. */
  lemma {:induction false} CursorsDescend(w: seq<Visit>, org: int, i: nat, j: nat)
    requires IsChain(w, org) && i < j < |w|
    ensures w[i].next.Some? && w[j].cursor.Some?
    ensures w[j].cursor == w[i].next || Less(w[j].cursor.value, w[i].next.value)
    decreases j
  {
    assert Follows(w[j-1], w[j]);
    if i < j - 1 {
      CursorsDescend(w, org, i, j - 1);
      VisitIsRange(w[j-1], org);
      assert w[j-1].next.value in w[j-1].page;
    }
  }

  /** On a page the latest date comes first, and of equal dates the greater id. */
  lemma LatestFirst(v: Visit, org: int, i: nat, j: nat)
    requires IsVisit(v, org) && i < j < |v.page|
    ensures v.page[i].ts > v.page[j].ts || (v.page[i].ts == v.page[j].ts && v.page[i].id > v.page[j].id)
  {
    VisitIsRange(v, org);
    assert Less(v.page[j], v.page[i]);
  }

  /** A page is as late as can be: whatever is listed past its cursor and later than a row of it is on it too. */
  lemma NothingLaterLeftOut(v: Visit, org: int, k: Key, j: nat)
    requires IsVisit(v, org) && j < |v.page| && Listed(v.store, org, k) && k.ts > v.page[j].ts
    requires v.cursor.Some? ==> k.ts < v.cursor.value.ts
    ensures k in v.page
  {
    VisitIsRange(v, org);
    assert v.page[j] in v.page;
  }

  /** No project is returned twice. */
  lemma NoneTwice(w: seq<Visit>, org: int, i: nat, j: nat, a: Key, b: Key)
    requires IsWalk(w, org) && i < j < |w|
    requires a in w[i].page && b in w[j].page
    ensures a.id != b.id
  {
    VisitIsRange(w[i], org);
    VisitIsRange(w[j], org);
    CursorsDescend(w, org, i, j);
    WalkLater(w, org, i, j);
  }

  /** Within one page no project appears twice either, and each one belongs to the organisation. */
  lemma NoneTwiceInPage(v: Visit, org: int, i: nat, j: nat)
    requires IsVisit(v, org) && i < j < |v.page|
    ensures v.page[i].id != v.page[j].id
    ensures v.page[i].id in v.store.db && v.store.db[v.page[i].id].org == org
  {
    VisitIsRange(v, org);
    assert v.page[i] in v.page && v.page[j] in v.page;
  }

  /** A project that is listed, unchanged, from some page of a finished chain on, past that page's cursor, is on
      that page or a later one. */
  lemma {:induction false} UnchangedIsReturned(w: seq<Visit>, org: int, k: Key, from: nat) returns (i: nat)
    requires IsChain(w, org) && w[|w|-1].next == None
    requires from < |w| && Past(k, w[from].cursor)
    requires forall j | from <= j < |w| :: Listed(w[j].store, org, k)
    ensures from <= i < |w| && k in w[i].page
    decreases |w| - from
  {
    VisitIsRange(w[from], org);
    if k in w[from].page {
      i := from;
    } else {
      assert from + 1 < |w| ==> Follows(w[from], w[from+1]);
      i := UnchangedIsReturned(w, org, k, from + 1);
    }
  }

  lemma UntouchedIsReturnedOnce(w: seq<Visit>, org: int, k: Key)
    requires IsWalk(w, org) && w[|w|-1].next == None
    requires forall j | 0 <= j < |w| :: Listed(w[j].store, org, k)
    ensures exists i :: 0 <= i < |w| && k in w[i].page && forall j | 0 <= j < |w| && j != i :: k !in w[j].page
  {
    var i := UnchangedIsReturned(w, org, k, 0);
    forall j | 0 <= j < |w| && j != i
      ensures k !in w[j].page
    {
      if k in w[j].page {
        if i < j { NoneTwice(w, org, i, j, k, k); } else { NoneTwice(w, org, j, i, k, k); }
      }
    }
  }

  // ----- projects that are dated back --------------------------------------------------------

  /** Whatever happens to the projects: one on two pages was dated back in between, past the cursor behind the
      first of them. */
  lemma RepeatIsDatedBack(w: seq<Visit>, org: int, i: nat, j: nat, a: Key, b: Key)
    requires IsChain(w, org) && i < j < |w|
    requires a in w[i].page && b in w[j].page
    ensures Less(b, a) && Past(b, w[i].next)
    ensures a.id == b.id ==> b.ts < a.ts
  {
    VisitIsRange(w[i], org);
    VisitIsRange(w[j], org);
    CursorsDescend(w, org, i, j);
  }

  /** A project that was on one page and has another date from then on is returned once more exactly when it
      was dated back past the cursor behind that page. */
  lemma RepeatedIffDatedBack(w: seq<Visit>, org: int, i: nat, a: Key, b: Key)
    requires IsChain(w, org) && w[|w|-1].next == None
    requires i + 1 < |w| && a in w[i].page && b.id == a.id
    requires forall j | i < j < |w| :: Listed(w[j].store, org, b)
    ensures (exists j :: i < j < |w| && b in w[j].page) <==> Past(b, w[i].next)
    ensures Past(b, w[i].next) ==> b.ts < a.ts
  {
    assert Follows(w[i], w[i+1]);
    VisitIsRange(w[i], org);
    if Past(b, w[i].next) {
      var j := UnchangedIsReturned(w, org, b, i + 1);
    }
    forall j | i < j < |w| && b in w[j].page
      ensures Past(b, w[i].next)
    {
      RepeatIsDatedBack(w, org, i, j, a, b);
    }
  }

  /** Such a chain exists: two projects, two pages, and one of the projects on both. */
  lemma BackdatingRepeats() returns (w: seq<Visit>)
    ensures IsChain(w, 1) && |w| == 2 && w[1].next == None
    ensures Key(10, 1) in w[0].page && Key(7, 1) in w[1].page
    ensures w[1].store == w[0].store.(db := w[0].store.db[1 := Project(1, 7)])
  {
    var s := Store(map[1 := Project(1, 10), 2 := Project(1, 5)], {1, 2});
    var s' := s.(db := s.db[1 := Project(1, 7)]);
    var v := FetchTwo(s, None, Key(10, 1), Key(5, 2), 1);
    var v' := FetchTwo(s', v.next, Key(7, 1), Key(5, 2), 2);
    w := [v, v'];
    assert w[1].page[0] == Key(7, 1);
  }

  lemma FetchTwo(s: Store, cursor: Option<Key>, a: Key, b: Key, limit: nat) returns (v: Visit)
    requires s.db.Keys == {a.id, b.id} && a.id != b.id && Less(b, a) && 1 <= limit <= 2
    requires Listed(s, 1, a) && Listed(s, 1, b) && Past(a, cursor) && Past(b, cursor)
    ensures v.store == s && v.cursor == cursor && IsVisit(v, 1)
    ensures v.page == [a, b][..limit] && v.next == if limit == 1 then Some(a) else None
  {
    var f := [a, b];
    assert f[0] in f && f[1] in f && f[..2] == f;
    var (page, next) := ListProjects(f, limit);
    v := Visit(s, cursor, limit, page, next);
    assert Fetched(v.store, 1, v.cursor, v.limit + 1, f) && (v.page, v.next) == ListProjects(f, v.limit);
  }

  // ----- a walk ends -------------------------------------------------------------------------

  /** The ids a walk may still return. */
  ghost function Ahead(s: Store, org: int, cursor: Option<Key>): set<int> {
    set id | id in s.db && s.db[id].org == org && Past(Key(s.db[id].updatedAt, id), cursor)
  }

  /** The new projects that a walk may still return: those dated past its cursor. */
  ghost function Joining(s: Store, t: Store, org: int, cursor: Option<Key>): set<int> {
    Ahead(t, org, cursor) - s.db.Keys
  }

  ghost function IdsOf(page: seq<Key>): set<int> {
    set i | 0 <= i < |page| :: page[i].id
  }

  lemma PageIsAhead(v: Visit, org: int)
    requires IsVisit(v, org)
    ensures |IdsOf(v.page)| == |v.page| && IdsOf(v.page) <= Ahead(v.store, org, v.cursor)
  {
    VisitIsRange(v, org);
    forall i, j | 0 <= i < j < |v.page|
      ensures v.page[i].id != v.page[j].id
    {
      NoneTwiceInPage(v, org, i, j);
    }
    DistinctIds(v.page, IdsOf(v.page));
    forall i | 0 <= i < |v.page|
      ensures v.page[i].id in Ahead(v.store, org, v.cursor)
    {
      assert v.page[i] in v.page;
    }
  }

  lemma AheadOnlyFalls(v: Visit, v': Visit, org: int)
    requires IsVisit(v, org) && Later(v.store, v'.store) && Follows(v, v')
    ensures Ahead(v'.store, org, v'.cursor) - Joining(v.store, v'.store, org, v'.cursor) <=
            Ahead(v.store, org, v.cursor) - IdsOf(v.page)
  {
    VisitIsRange(v, org);
    assert v.next.value in v.page;
    forall id | id in Ahead(v'.store, org, v'.cursor) && id in v.store.db
      ensures id in Ahead(v.store, org, v.cursor) && id !in IdsOf(v.page)
    {
      var now, was := Key(v'.store.db[id].updatedAt, id), Key(v.store.db[id].updatedAt, id);
      assert was == now || Less(was, now);
      assert was !in v.page;
      forall i | 0 <= i < |v.page|
        ensures v.page[i].id != id
      {
        var k := v.page[i];
        assert k in v.page && k == Key(v.store.db[k.id].updatedAt, k.id);
      }
    }
  }

  lemma {:induction false} DistinctIds(page: seq<Key>, ids: set<int>)
    requires forall i, j | 0 <= i < j < |page| :: page[i].id != page[j].id
    requires ids == set i | 0 <= i < |page| :: page[i].id
    ensures |ids| == |page|
  {
    if page != [] {
      var init, last := page[..|page|-1], page[|page|-1];
      var rest := set i | 0 <= i < |init| :: init[i].id;
      DistinctIds(init, rest);
      assert ids == rest + {last.id};
    }
  }

  lemma SubsetSize(a: set<int>, b: set<int>)
    requires a <= b
    ensures |a| <= |b|
  {
    assert b == a + (b - a);
  }

  lemma SizesAddUp(after: set<int>, joined: set<int>, before: set<int>, ids: set<int>)
    requires joined <= after && after - joined <= before - ids && ids <= before
    ensures |after| + |ids| <= |before| + |joined|
  {
    SubsetSize(after - joined, before - ids);
    assert |after - joined| == |after| - |joined|;
    assert |before - ids| == |before| - |ids|;
  }

  /** Each page takes a full page of projects off those a walk may still return, and only new ones dated past
      its cursor join them. */
  lemma AheadShrinks(w: seq<Visit>, org: int, k: nat)
    requires IsWalk(w, org) && 0 < k < |w|
    ensures |Ahead(w[k].store, org, w[k].cursor)| + w[k-1].limit <=
            |Ahead(w[k-1].store, org, w[k-1].cursor)| + |Joining(w[k-1].store, w[k].store, org, w[k].cursor)|
  {
    var v, v' := w[k-1], w[k];
    WalkLater(w, org, k - 1, k);
    assert Follows(v, v');
    VisitIsRange(v, org);
    PageIsAhead(v, org);
    AheadOnlyFalls(v, v', org);
    SizesAddUp(Ahead(v'.store, org, v'.cursor), Joining(v.store, v'.store, org, v'.cursor),
               Ahead(v.store, org, v.cursor), IdsOf(v.page));
  }

  /** How many projects the first `k` pages were to hold. */
  function Room(w: seq<Visit>, k: nat): nat
    requires k <= |w|
  {
    if k == 0 then 0 else Room(w, k - 1) + w[k-1].limit
  }

  /** How many new projects had joined a walk when it came to page `k`. */
  ghost function Joined(w: seq<Visit>, org: int, k: nat): nat
    requires k < |w|
  {
    if k == 0 then 0 else Joined(w, org, k - 1) + |Joining(w[k-1].store, w[k].store, org, w[k].cursor)|
  }

  /** A walk ends: every page but the last is filled by projects that were there at its start, or that were
      inserted since with a date past its cursor; with none of those, its pages are bounded from the start. */
  lemma {:induction false} WalkEnds(w: seq<Visit>, org: int, k: nat)
    requires IsWalk(w, org) && k < |w|
    ensures k <= Room(w, k)
    ensures Room(w, k) + |Ahead(w[k].store, org, w[k].cursor)| <= |Ahead(w[0].store, org, None)| + Joined(w, org, k)
  {
    if k > 0 {
      WalkEnds(w, org, k - 1);
      AheadShrinks(w, org, k);
      assert IsVisit(w[k-1], org);
    }
  }
}
