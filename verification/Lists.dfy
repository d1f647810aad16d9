/** User lists: system lists and their reserved slugs, custom lists, and the items in them. */
module Lists {
  import opened Model
  import opened Slug

  datatype MediaType = Movie | Tv

  datatype Item = Item(listId: Uuid, userId: int, mediaType: MediaType, tmdbId: int, title: string)

  datatype Shelf = Shelf(lists: seq<UserList>, items: seq<Item>)

  datatype SystemList = SystemList(name: string, slug: string, listKey: string)

  const SYSTEM_LISTS: seq<SystemList> := [
    SystemList("Favorites", "favorites", "favorites"),
    SystemList("Watchlist", "watchlist", "watchlist"),
    SystemList("Watched", "watched", "watched")
  ]

  predicate Reserved(slug: string) { exists k | 0 <= k < |SYSTEM_LISTS| :: SYSTEM_LISTS[k].slug == slug }

  predicate SystemKey(listKey: string) { exists k | 0 <= k < |SYSTEM_LISTS| :: SYSTEM_LISTS[k].listKey == listKey }

  const CUSTOM_PREFIX: string := "custom:"

  function CustomKey(drawn: Uuid): string { CUSTOM_PREFIX + drawn }

  /** The width the list_key column is declared with. */
  const LIST_KEY_WIDTH: nat := 40

  // ---- Lookups ----

  function ListOf(lists: seq<UserList>, userId: int, listId: string): (i: nat)
    ensures i <= |lists|
    ensures i < |lists| ==> lists[i].id == listId && lists[i].userId == userId
    ensures forall k | 0 <= k < i :: !(lists[k].id == listId && lists[k].userId == userId)
  {
    if lists == [] || (lists[0].id == listId && lists[0].userId == userId) then 0 else 1 + ListOf(lists[1..], userId, listId)
  }

  function ByKey(lists: seq<UserList>, userId: int, listKey: string): (i: nat)
    ensures i <= |lists|
    ensures i < |lists| ==> lists[i].userId == userId && lists[i].listKey == listKey
    ensures forall k | 0 <= k < i :: !(lists[k].userId == userId && lists[k].listKey == listKey)
  {
    if lists == [] || (lists[0].userId == userId && lists[0].listKey == listKey) then 0 else 1 + ByKey(lists[1..], userId, listKey)
  }

  predicate IsItem(item: Item, listId: Uuid, mediaType: MediaType, tmdbId: int) {
    item.listId == listId && item.mediaType == mediaType && item.tmdbId == tmdbId
  }

  function ItemOf(items: seq<Item>, listId: Uuid, mediaType: MediaType, tmdbId: int): (i: nat)
    ensures i <= |items|
    ensures i < |items| ==> IsItem(items[i], listId, mediaType, tmdbId)
    ensures forall k | 0 <= k < i :: !IsItem(items[k], listId, mediaType, tmdbId)
  {
    if items == [] || IsItem(items[0], listId, mediaType, tmdbId) then 0 else 1 + ItemOf(items[1..], listId, mediaType, tmdbId)
  }

  /** The rows of a list removed, the rest in order. */
  function WithoutList(items: seq<Item>, listId: Uuid): (rest: seq<Item>)
    ensures forall x :: x in rest <==> x in items && x.listId != listId
  {
    if items == [] then []
    else
      var rest := WithoutList(items[..|items| - 1], listId);
      assert items == items[..|items| - 1] + [items[|items| - 1]];
      if items[|items| - 1].listId == listId then rest else rest + [items[|items| - 1]]
  }

  /** Saving `l` as row `i` would repeat another row's primary key, or its user's key or slug. */
  predicate ListClash(lists: seq<UserList>, i: nat, l: UserList) {
    exists k | 0 <= k < |lists| ::
      k != i && (lists[k].id == l.id || (lists[k].userId == l.userId && (lists[k].slug == l.slug || lists[k].listKey == l.listKey)))
  }

  // ---- The operations ----

  datatype Reply =
    | Lists(lists: seq<UserList>)
    | Saved(list: UserList)
    | ItemSaved(item: Item)
    | Removed
    | NotFound
    | Forbidden
    | Conflict
    | BadRequest
    | DatabaseError

  datatype Call = Call(shelf: Shelf, reply: Reply)

  function NewSystemList(id: Uuid, userId: int, s: SystemList): UserList {
    UserList(id, userId, s.name, s.slug, s.listKey, true)
  }

  /** The system lists among the first `n` that the user lacks; `ids` are what the database draws for them. */
  function ToCreate(lists: seq<UserList>, userId: int, ids: seq<Uuid>, n: nat): seq<UserList>
    requires n <= |SYSTEM_LISTS| == |ids|
  {
    if n == 0 then []
    else
      var rest := ToCreate(lists, userId, ids, n - 1);
      if ByKey(lists, userId, SYSTEM_LISTS[n - 1].listKey) < |lists| then rest
      else rest + [NewSystemList(ids[n - 1], userId, SYSTEM_LISTS[n - 1])]
  }

  /** All rows go in, or none does. */
  predicate Accepts(lists: seq<UserList>, rows: seq<UserList>) {
    forall j | 0 <= j < |rows| :: !ListClash(lists + rows, |lists| + j, rows[j])
  }

  function SystemListsOf(lists: seq<UserList>, userId: int): seq<UserList>
    requires forall k | 0 <= k < |SYSTEM_LISTS| :: ByKey(lists, userId, SYSTEM_LISTS[k].listKey) < |lists|
  {
    seq(|SYSTEM_LISTS|, k requires 0 <= k < |SYSTEM_LISTS| => lists[ByKey(lists, userId, SYSTEM_LISTS[k].listKey)])
  }

  function EnsureSystemLists(shelf: Shelf, userId: int, ids: seq<Uuid>): Call
    requires |ids| == |SYSTEM_LISTS|
  {
    var rows := ToCreate(shelf.lists, userId, ids, |SYSTEM_LISTS|);
    if !Accepts(shelf.lists, rows) then Call(shelf, DatabaseError)
    else
      CreatedAreFound(shelf.lists, userId, ids, |SYSTEM_LISTS|);
      Call(shelf.(lists := shelf.lists + rows), Lists(SystemListsOf(shelf.lists + rows, userId)))
  }

  /** `id` and `drawn` are fresh; `width` is how long a list_key the database takes. */
  function Create(shelf: Shelf, userId: int, name: string, slug: Option<string>, id: Uuid, drawn: Uuid, width: nat): Call {
    var chosen := if slug.Some? && slug.value != "" then slug.value else UniqueListSlug(shelf.lists, name, None);
    var list := UserList(id, userId, name, chosen, CustomKey(drawn), false);
    if Reserved(chosen) then Call(shelf, Conflict)
    else if |list.listKey| > width then Call(shelf, DatabaseError)
    else if ListClash(shelf.lists, |shelf.lists|, list) then Call(shelf, Conflict)
    else Call(shelf.(lists := shelf.lists + [list]), Saved(list))
  }

  function Update(shelf: Shelf, userId: int, listId: string, name: Option<string>, slug: Option<string>): Call {
    var i := ListOf(shelf.lists, userId, listId);
    if i == |shelf.lists| then Call(shelf, NotFound)
    else if shelf.lists[i].isSystem then Call(shelf, Forbidden)
    else
      var named := if name.Some? then shelf.lists[i].(name := name.value) else shelf.lists[i];
      var list := if slug.Some? then named.(slug := slug.value) else named;
      if slug.Some? && Reserved(slug.value) then Call(shelf, Conflict)
      else if list.slug != shelf.lists[i].slug && ListClash(shelf.lists, i, list) then Call(shelf, Conflict)
      else Call(shelf.(lists := shelf.lists[i := list]), Saved(list))
  }

  function Remove(shelf: Shelf, userId: int, listId: string): Call {
    var i := ListOf(shelf.lists, userId, listId);
    if i == |shelf.lists| then Call(shelf, NotFound)
    else if shelf.lists[i].isSystem then Call(shelf, Forbidden)
    else Call(Shelf(shelf.lists[..i] + shelf.lists[i + 1..], WithoutList(shelf.items, shelf.lists[i].id)), Removed)
  }

  /** `title` is what the media catalogue answers; None when it has no title. */
  function AddItem(shelf: Shelf, userId: int, listId: string, mediaType: MediaType, tmdbId: int, title: Option<string>): Call {
    var i := ListOf(shelf.lists, userId, listId);
    if i == |shelf.lists| then Call(shelf, NotFound)
    else
      var k := ItemOf(shelf.items, shelf.lists[i].id, mediaType, tmdbId);
      if k < |shelf.items| then Call(shelf, ItemSaved(shelf.items[k]))
      else if title.None? || title.value == "" then Call(shelf, BadRequest)
      else
        var item := Item(shelf.lists[i].id, userId, mediaType, tmdbId, title.value);
        Call(shelf.(items := shelf.items + [item]), ItemSaved(item))
  }

  function RemoveItem(shelf: Shelf, userId: int, listId: string, mediaType: MediaType, tmdbId: int): Call {
    var i := ListOf(shelf.lists, userId, listId);
    if i == |shelf.lists| then Call(shelf, NotFound)
    else
      var k := ItemOf(shelf.items, shelf.lists[i].id, mediaType, tmdbId);
      if k == |shelf.items| then Call(shelf, NotFound)
      else Call(shelf.(items := shelf.items[..k] + shelf.items[k + 1..]), Removed)
  }

  // ---- Runs ----

  datatype Step =
    | DoEnsure(userId: int, ids: seq<Uuid>)
    | DoCreate(userId: int, name: string, slug: Option<string>, id: Uuid, drawn: Uuid, width: nat)
    | DoUpdate(userId: int, listId: string, newName: Option<string>, newSlug: Option<string>)
    | DoRemove(userId: int, listId: string)
    | DoAddItem(userId: int, listId: string, mediaType: MediaType, tmdbId: int, title: Option<string>)
    | DoRemoveItem(userId: int, listId: string, mediaType: MediaType, tmdbId: int)

  function Serve(shelf: Shelf, step: Step): Call {
    match step
    case DoEnsure(userId, ids) =>
      if |ids| == |SYSTEM_LISTS| then EnsureSystemLists(shelf, userId, ids) else Call(shelf, DatabaseError)
    case DoCreate(userId, name, slug, id, drawn, width) => Create(shelf, userId, name, slug, id, drawn, width)
    case DoUpdate(userId, listId, name, slug) => Update(shelf, userId, listId, name, slug)
    case DoRemove(userId, listId) => Remove(shelf, userId, listId)
    case DoAddItem(userId, listId, mediaType, tmdbId, title) => AddItem(shelf, userId, listId, mediaType, tmdbId, title)
    case DoRemoveItem(userId, listId, mediaType, tmdbId) => RemoveItem(shelf, userId, listId, mediaType, tmdbId)
  }

  function Run(shelf: Shelf, steps: seq<Step>): Shelf {
    if steps == [] then shelf else Serve(Run(shelf, steps[..|steps| - 1]), steps[|steps| - 1]).shelf
  }

  // ---- The invariant ----

  predicate UniqueLists(lists: seq<UserList>) {
    forall i, j | 0 <= i < j < |lists| ::
      lists[i].id != lists[j].id &&
      (lists[i].userId == lists[j].userId ==> lists[i].slug != lists[j].slug && lists[i].listKey != lists[j].listKey)
  }

  /** A system list is one of the three, untouched; any other has a key of its own and no reserved slug. */
  predicate ProperList(l: UserList) {
    if l.isSystem then exists k | 0 <= k < |SYSTEM_LISTS| :: l == NewSystemList(l.id, l.userId, SYSTEM_LISTS[k])
    else !Reserved(l.slug) && CUSTOM_PREFIX <= l.listKey
  }

  /** The item's list exists and is the same user's. */
  predicate Housed(x: Item, lists: seq<UserList>) {
    exists i | 0 <= i < |lists| :: lists[i].id == x.listId && lists[i].userId == x.userId
  }

  predicate UniqueItems(items: seq<Item>) {
    forall i, j | 0 <= i < j < |items| :: !IsItem(items[i], items[j].listId, items[j].mediaType, items[j].tmdbId)
  }

  predicate Inv(shelf: Shelf) {
    UniqueLists(shelf.lists) && UniqueItems(shelf.items) &&
    (forall i | 0 <= i < |shelf.lists| :: ProperList(shelf.lists[i])) &&
    forall x | x in shelf.items :: Housed(x, shelf.lists)
  }

  lemma KeysTellSystemLists(l: UserList)
    requires ProperList(l)
    ensures l.isSystem <==> SystemKey(l.listKey)
    ensures l.isSystem <==> Reserved(l.slug)
    ensures forall k | 0 <= k < |SYSTEM_LISTS| :: l.listKey == SYSTEM_LISTS[k].listKey ==> l.slug == SYSTEM_LISTS[k].slug
    ensures forall k | 0 <= k < |SYSTEM_LISTS| :: l.slug == SYSTEM_LISTS[k].slug ==> l.listKey == SYSTEM_LISTS[k].listKey
  {
    if !l.isSystem {
      assert l.listKey[0] == 'c';
      assert forall k | 0 <= k < |SYSTEM_LISTS| :: SYSTEM_LISTS[k].listKey[0] != 'c';
    }
  }

  // ---- ensureSystemLists ----

  /** `row` is the user's missing system list number `k`. */
  predicate CreatedFrom(row: UserList, lists: seq<UserList>, userId: int, ids: seq<Uuid>, k: nat)
    requires k < |SYSTEM_LISTS| == |ids|
  {
    row == NewSystemList(ids[k], userId, SYSTEM_LISTS[k]) && ByKey(lists, userId, SYSTEM_LISTS[k].listKey) == |lists|
  }

  /** Every row is one of the user's missing system lists among the first `n`. */
  predicate OnlyMissing(rows: seq<UserList>, lists: seq<UserList>, userId: int, ids: seq<Uuid>, n: nat)
    requires n <= |SYSTEM_LISTS| == |ids|
  {
    forall row | row in rows :: exists k | 0 <= k < n :: CreatedFrom(row, lists, userId, ids, k)
  }

  /** And every missing one is a row. */
  predicate AllMissing(rows: seq<UserList>, lists: seq<UserList>, userId: int, ids: seq<Uuid>, n: nat)
    requires n <= |SYSTEM_LISTS| == |ids|
  {
    forall k | 0 <= k < n && ByKey(lists, userId, SYSTEM_LISTS[k].listKey) == |lists| ::
      NewSystemList(ids[k], userId, SYSTEM_LISTS[k]) in rows
  }

  lemma {:induction false} ToCreateFacts(lists: seq<UserList>, userId: int, ids: seq<Uuid>, n: nat)
    requires n <= |SYSTEM_LISTS| == |ids|
    ensures OnlyMissing(ToCreate(lists, userId, ids, n), lists, userId, ids, n)
    ensures AllMissing(ToCreate(lists, userId, ids, n), lists, userId, ids, n)
  {
    if n > 0 {
      ToCreateFacts(lists, userId, ids, n - 1);
      var rest, rows := ToCreate(lists, userId, ids, n - 1), ToCreate(lists, userId, ids, n);
      forall row | row in rows ensures exists k | 0 <= k < n :: CreatedFrom(row, lists, userId, ids, k) {
        if row in rest {
          var k :| 0 <= k < n - 1 && CreatedFrom(row, lists, userId, ids, k);
          assert CreatedFrom(row, lists, userId, ids, k);
        } else {
          assert CreatedFrom(row, lists, userId, ids, n - 1);
        }
      }
    }
  }

  lemma SystemListsDiffer()
    ensures forall a, b | 0 <= a < b < |SYSTEM_LISTS| ::
              SYSTEM_LISTS[a].slug != SYSTEM_LISTS[b].slug && SYSTEM_LISTS[a].listKey != SYSTEM_LISTS[b].listKey
  {
    assert SYSTEM_LISTS[0].slug[0] == 'f' && SYSTEM_LISTS[0].listKey[0] == 'f';
    assert SYSTEM_LISTS[1].slug[4] == 'h' && SYSTEM_LISTS[1].listKey[4] == 'h';
    assert SYSTEM_LISTS[2].slug[5] == 'e' && SYSTEM_LISTS[2].listKey[5] == 'e';
    assert |SYSTEM_LISTS[1].slug| == 9 && |SYSTEM_LISTS[2].slug| == 7;
  }

  lemma CreatedAreFound(lists: seq<UserList>, userId: int, ids: seq<Uuid>, n: nat)
    requires n <= |SYSTEM_LISTS| == |ids|
    ensures var all := lists + ToCreate(lists, userId, ids, n);
            forall k | 0 <= k < n :: ByKey(all, userId, SYSTEM_LISTS[k].listKey) < |all|
  {
    ToCreateFacts(lists, userId, ids, n);
    var rows := ToCreate(lists, userId, ids, n);
    var all := lists + rows;
    forall k | 0 <= k < n ensures ByKey(all, userId, SYSTEM_LISTS[k].listKey) < |all| {
      var i := ByKey(lists, userId, SYSTEM_LISTS[k].listKey);
      if i < |lists| {
        assert all[i].userId == userId && all[i].listKey == SYSTEM_LISTS[k].listKey;
      } else {
        var row := NewSystemList(ids[k], userId, SYSTEM_LISTS[k]);
        var j :| 0 <= j < |rows| && rows[j] == row;
        assert all[|lists| + j] == row;
      }
    }
  }

  predicate FreshIds(lists: seq<UserList>, ids: seq<Uuid>) {
    (forall a, b | 0 <= a < b < |ids| :: ids[a] != ids[b]) && forall i | 0 <= i < |lists| :: lists[i].id !in ids
  }

  /** A row made for a missing system list repeats nothing of a proper list on file. */
  lemma CreatedIsNew(lists: seq<UserList>, userId: int, ids: seq<Uuid>, row: UserList, k: nat, i: nat)
    requires k < |SYSTEM_LISTS| == |ids| && CreatedFrom(row, lists, userId, ids, k) && FreshIds(lists, ids)
    requires i < |lists| && ProperList(lists[i])
    ensures lists[i].id != row.id
    ensures lists[i].userId == row.userId ==> lists[i].slug != row.slug && lists[i].listKey != row.listKey
  {
    KeysTellSystemLists(lists[i]);
    assert ids[k] in ids;
  }

  /** New system rows repeat no key: not each other's, and none on file, since only system lists have their slugs. */
  lemma EnsureIsAccepted(shelf: Shelf, userId: int, ids: seq<Uuid>)
    requires Inv(shelf) && |ids| == |SYSTEM_LISTS| && FreshIds(shelf.lists, ids)
    ensures Accepts(shelf.lists, ToCreate(shelf.lists, userId, ids, |SYSTEM_LISTS|))
  {
    var lists, rows := shelf.lists, ToCreate(shelf.lists, userId, ids, |SYSTEM_LISTS|);
    ToCreateFacts(lists, userId, ids, |SYSTEM_LISTS|);
    ToCreateDistinct(lists, userId, ids, |SYSTEM_LISTS|);
    forall j | 0 <= j < |rows| ensures !ListClash(lists + rows, |lists| + j, rows[j]) {
      var row := rows[j];
      assert row in rows;
      var k :| 0 <= k < |SYSTEM_LISTS| && CreatedFrom(row, lists, userId, ids, k);
      forall i | 0 <= i < |lists|
        ensures lists[i].id != row.id
        ensures lists[i].userId == row.userId ==> lists[i].slug != row.slug && lists[i].listKey != row.listKey
      {
        CreatedIsNew(lists, userId, ids, row, k, i);
      }
    }
  }

  lemma {:induction false} ToCreateDistinct(lists: seq<UserList>, userId: int, ids: seq<Uuid>, n: nat)
    requires n <= |SYSTEM_LISTS| == |ids| && forall a, b | 0 <= a < b < |ids| :: ids[a] != ids[b]
    ensures UniqueLists(ToCreate(lists, userId, ids, n))
  {
    if n > 0 {
      ToCreateDistinct(lists, userId, ids, n - 1);
      ToCreateFacts(lists, userId, ids, n - 1);
      SystemListsDiffer();
      var rest, last := ToCreate(lists, userId, ids, n - 1), NewSystemList(ids[n - 1], userId, SYSTEM_LISTS[n - 1]);
      forall j | 0 <= j < |rest|
        ensures rest[j].id != last.id && rest[j].slug != last.slug && rest[j].listKey != last.listKey
      {
        var row := rest[j];
        assert row in rest;
        var k :| 0 <= k < n - 1 && CreatedFrom(row, lists, userId, ids, k);
      }
    }
  }

  /**
   * ensureSystemLists never fails: it answers with the user's three lists, one for each key, and when it is
   * called again it creates nothing and gives the same answer.
   */
  lemma EnsureNeverCollides(shelf: Shelf, userId: int, ids: seq<Uuid>, more: seq<Uuid>)
    requires Inv(shelf) && |ids| == |more| == |SYSTEM_LISTS| && FreshIds(shelf.lists, ids)
    ensures var call := EnsureSystemLists(shelf, userId, ids);
            && call.reply.Lists? && |call.reply.lists| == |SYSTEM_LISTS|
            && (forall k | 0 <= k < |SYSTEM_LISTS| ::
                  var l := call.reply.lists[k];
                  l in call.shelf.lists && l == NewSystemList(l.id, userId, SYSTEM_LISTS[k]))
            && EnsureSystemLists(call.shelf, userId, more) == call
  {
    EnsureIsAccepted(shelf, userId, ids);
    CreatedAreFound(shelf.lists, userId, ids, |SYSTEM_LISTS|);
    EnsureKeepsInv(shelf, userId, ids);
    var call := EnsureSystemLists(shelf, userId, ids);
    FoundSystemLists(call.shelf.lists, userId);
    NothingToCreate(call.shelf.lists, userId, more, |SYSTEM_LISTS|);
    assert call.shelf.lists + [] == call.shelf.lists;
  }

  lemma FoundSystemLists(lists: seq<UserList>, userId: int)
    requires forall i | 0 <= i < |lists| :: ProperList(lists[i])
    requires forall k | 0 <= k < |SYSTEM_LISTS| :: ByKey(lists, userId, SYSTEM_LISTS[k].listKey) < |lists|
    ensures var found := SystemListsOf(lists, userId);
            forall k | 0 <= k < |SYSTEM_LISTS| ::
              found[k] in lists && found[k] == NewSystemList(found[k].id, userId, SYSTEM_LISTS[k])
  {
    var found := SystemListsOf(lists, userId);
    SystemListsDiffer();
    forall k | 0 <= k < |SYSTEM_LISTS|
      ensures found[k] in lists && found[k] == NewSystemList(found[k].id, userId, SYSTEM_LISTS[k])
    {
      KeysTellSystemLists(found[k]);
      var m :| 0 <= m < |SYSTEM_LISTS| && found[k] == NewSystemList(found[k].id, found[k].userId, SYSTEM_LISTS[m]);
      assert m == k;
    }
  }

  lemma {:induction false} NothingToCreate(lists: seq<UserList>, userId: int, ids: seq<Uuid>, n: nat)
    requires n <= |SYSTEM_LISTS| == |ids|
    requires forall k | 0 <= k < n :: ByKey(lists, userId, SYSTEM_LISTS[k].listKey) < |lists|
    ensures ToCreate(lists, userId, ids, n) == []
  {
    if n > 0 { NothingToCreate(lists, userId, ids, n - 1); }
  }

  lemma MoreListsKeepHousing(items: seq<Item>, lists: seq<UserList>, rows: seq<UserList>)
    requires forall x | x in items :: Housed(x, lists)
    ensures forall x | x in items :: Housed(x, lists + rows)
  {
    forall x | x in items ensures Housed(x, lists + rows) {
      var i :| 0 <= i < |lists| && lists[i].id == x.listId && lists[i].userId == x.userId;
      assert (lists + rows)[i] == lists[i];
    }
  }

  lemma EnsureKeepsInv(shelf: Shelf, userId: int, ids: seq<Uuid>)
    requires Inv(shelf) && |ids| == |SYSTEM_LISTS|
    ensures Inv(EnsureSystemLists(shelf, userId, ids).shelf)
  {
    var lists, rows := shelf.lists, ToCreate(shelf.lists, userId, ids, |SYSTEM_LISTS|);
    if Accepts(lists, rows) {
      ToCreateFacts(lists, userId, ids, |SYSTEM_LISTS|);
      MoreListsKeepHousing(shelf.items, lists, rows);
      forall row | row in rows ensures ProperList(row) {
        var k :| 0 <= k < |SYSTEM_LISTS| && CreatedFrom(row, lists, userId, ids, k);
      }
      AcceptedKeepUnique(lists, rows);
    }
  }

  lemma AcceptedKeepUnique(lists: seq<UserList>, rows: seq<UserList>)
    requires UniqueLists(lists) && Accepts(lists, rows)
    ensures UniqueLists(lists + rows)
  {
    var all := lists + rows;
    forall i, j | 0 <= i < j < |all| && |lists| <= j
      ensures all[i].id != all[j].id
      ensures all[i].userId == all[j].userId ==> all[i].slug != all[j].slug && all[i].listKey != all[j].listKey
    {
      assert !ListClash(all, j, rows[j - |lists|]);
    }
  }

  // ---- The other operations ----

  lemma CreateKeepsInv(shelf: Shelf, userId: int, name: string, slug: Option<string>, id: Uuid, drawn: Uuid, width: nat)
    requires Inv(shelf)
    ensures Inv(Create(shelf, userId, name, slug, id, drawn, width).shelf)
  {
    var all := Create(shelf, userId, name, slug, id, drawn, width).shelf.lists;
    if |all| > |shelf.lists| {
      MoreListsKeepHousing(shelf.items, shelf.lists, [all[|shelf.lists|]]);
      assert UniqueLists(all);
      assert ProperList(all[|shelf.lists|]);
    }
  }

  lemma RenamedKeepsUnique(lists: seq<UserList>, i: nat, l: UserList)
    requires UniqueLists(lists) && i < |lists| && l.id == lists[i].id && l.userId == lists[i].userId && l.listKey == lists[i].listKey
    requires l.slug == lists[i].slug || !ListClash(lists, i, l)
    ensures UniqueLists(lists[i := l])
  {
    var all := lists[i := l];
    forall a, b | 0 <= a < b < |all|
      ensures all[a].id != all[b].id
      ensures all[a].userId == all[b].userId ==> all[a].slug != all[b].slug && all[a].listKey != all[b].listKey
    {
      assert lists[a].id != lists[b].id;
    }
  }

  lemma RenamedKeepsHousing(items: seq<Item>, lists: seq<UserList>, i: nat, l: UserList)
    requires i < |lists| && l.id == lists[i].id && l.userId == lists[i].userId && forall x | x in items :: Housed(x, lists)
    ensures forall x | x in items :: Housed(x, lists[i := l])
  {
    var all := lists[i := l];
    forall x | x in items ensures Housed(x, all) {
      var k :| 0 <= k < |lists| && lists[k].id == x.listId && lists[k].userId == x.userId;
      assert all[k].id == x.listId && all[k].userId == x.userId;
    }
  }

  lemma UpdateKeepsInv(shelf: Shelf, userId: int, listId: string, name: Option<string>, slug: Option<string>)
    requires Inv(shelf)
    ensures Inv(Update(shelf, userId, listId, name, slug).shelf)
  {
    var lists := shelf.lists;
    var i, all := ListOf(lists, userId, listId), Update(shelf, userId, listId, name, slug).shelf.lists;
    if all != lists {
      assert all == lists[i := all[i]] && ProperList(lists[i]);
      RenamedKeepsUnique(lists, i, all[i]);
      RenamedKeepsHousing(shelf.items, lists, i, all[i]);
    }
  }

  lemma {:induction false} WithoutListKeepsUnique(items: seq<Item>, listId: Uuid)
    requires UniqueItems(items)
    ensures UniqueItems(WithoutList(items, listId))
  {
    if items != [] {
      var head, last := items[..|items| - 1], items[|items| - 1];
      WithoutListKeepsUnique(head, listId);
      var rest := WithoutList(head, listId);
      forall i | 0 <= i < |rest| ensures !IsItem(rest[i], last.listId, last.mediaType, last.tmdbId) {
        assert rest[i] in rest;
        var k :| 0 <= k < |head| && head[k] == rest[i];
        assert items[k] == rest[i];
      }
    }
  }

  lemma HousedAfterRemoval(lists: seq<UserList>, i: nat, x: Item)
    requires i < |lists| && Housed(x, lists) && x.listId != lists[i].id
    ensures Housed(x, lists[..i] + lists[i + 1..])
  {
    var k :| 0 <= k < |lists| && lists[k].id == x.listId && lists[k].userId == x.userId;
    var rest := lists[..i] + lists[i + 1..];
    assert rest[if k < i then k else k - 1] == lists[k];
  }

  lemma RemoveKeepsInv(shelf: Shelf, userId: int, listId: string)
    requires Inv(shelf)
    ensures Inv(Remove(shelf, userId, listId).shelf)
  {
    var lists := shelf.lists;
    var i, after := ListOf(lists, userId, listId), Remove(shelf, userId, listId).shelf;
    if i < |lists| && !lists[i].isSystem {
      WithoutListKeepsUnique(shelf.items, lists[i].id);
      forall k | 0 <= k < |after.lists| ensures after.lists[k] == lists[if k < i then k else k + 1] {}
      assert UniqueLists(after.lists);
      forall x | x in after.items ensures Housed(x, after.lists) {
        HousedAfterRemoval(lists, i, x);
      }
    }
  }

  lemma AddItemKeepsInv(shelf: Shelf, userId: int, listId: string, mediaType: MediaType, tmdbId: int, title: Option<string>)
    requires Inv(shelf)
    ensures Inv(AddItem(shelf, userId, listId, mediaType, tmdbId, title).shelf)
  {
    var added := AddItem(shelf, userId, listId, mediaType, tmdbId, title).shelf;
    if added.items != shelf.items {
      var x := added.items[|shelf.items|];
      assert added.items == shelf.items + [x];
      assert Housed(x, shelf.lists);
    }
  }

  lemma RemoveItemKeepsInv(shelf: Shelf, userId: int, listId: string, mediaType: MediaType, tmdbId: int)
    requires Inv(shelf)
    ensures Inv(RemoveItem(shelf, userId, listId, mediaType, tmdbId).shelf)
  {
    var items, left := shelf.items, RemoveItem(shelf, userId, listId, mediaType, tmdbId).shelf.items;
    if left != items {
      var i := ListOf(shelf.lists, userId, listId);
      var k := ItemOf(items, shelf.lists[i].id, mediaType, tmdbId);
      forall j | 0 <= j < |left| ensures left[j] == items[if j < k then j else j + 1] {}
      assert UniqueItems(left);
      assert forall x | x in left :: x in items;
    }
  }

  lemma StepKeepsInv(shelf: Shelf, step: Step)
    requires Inv(shelf)
    ensures Inv(Serve(shelf, step).shelf)
  {
    match step
    case DoEnsure(userId, ids) => if |ids| == |SYSTEM_LISTS| { EnsureKeepsInv(shelf, userId, ids); }
    case DoCreate(userId, name, slug, id, drawn, width) => CreateKeepsInv(shelf, userId, name, slug, id, drawn, width);
    case DoUpdate(userId, listId, name, slug) => UpdateKeepsInv(shelf, userId, listId, name, slug);
    case DoRemove(userId, listId) => RemoveKeepsInv(shelf, userId, listId);
    case DoAddItem(userId, listId, mediaType, tmdbId, title) =>
      AddItemKeepsInv(shelf, userId, listId, mediaType, tmdbId, title);
    case DoRemoveItem(userId, listId, mediaType, tmdbId) =>
      RemoveItemKeepsInv(shelf, userId, listId, mediaType, tmdbId);
  }

  lemma {:induction false} RunKeepsInv(shelf: Shelf, steps: seq<Step>)
    requires Inv(shelf)
    ensures Inv(Run(shelf, steps))
  {
    if steps != [] {
      RunKeepsInv(shelf, steps[..|steps| - 1]);
      StepKeepsInv(Run(shelf, steps[..|steps| - 1]), steps[|steps| - 1]);
    }
  }

  /** In any run from an empty shelf a list's slug is reserved exactly when it is a system list, under its own name and key. */
  lemma ReservedExactlyWhenSystem(steps: seq<Step>, l: UserList)
    requires l in Run(Shelf([], []), steps).lists
    ensures Reserved(l.slug) <==> l.isSystem
    ensures SystemKey(l.listKey) <==> l.isSystem
    ensures l.isSystem ==> SystemList(l.name, l.slug, l.listKey) in SYSTEM_LISTS
  {
    RunKeepsInv(Shelf([], []), steps);
    KeysTellSystemLists(l);
  }

  /** No operation renames or removes a system list. */
  lemma {:induction false} SystemListsStay(shelf: Shelf, steps: seq<Step>, l: UserList)
    requires l in shelf.lists && l.isSystem
    ensures l in Run(shelf, steps).lists
  {
    if steps != [] {
      SystemListsStay(shelf, steps[..|steps| - 1], l);
      SystemListStays(Run(shelf, steps[..|steps| - 1]), steps[|steps| - 1], l);
    }
  }

  lemma SystemListStays(shelf: Shelf, step: Step, l: UserList)
    requires l in shelf.lists && l.isSystem
    ensures l in Serve(shelf, step).shelf.lists
  {
    var lists, after := shelf.lists, Serve(shelf, step).shelf.lists;
    var k :| 0 <= k < |lists| && lists[k] == l;
    if step.DoUpdate? || step.DoRemove? {
      var i := ListOf(lists, step.userId, step.listId);
      if i < |lists| && !lists[i].isSystem {
        assert i != k;
        if step.DoUpdate? || k < i { assert after[k] == l; } else { assert after[k - 1] == l; }
      }
    } else {
      assert after[k] == l;
    }
  }

  /** The slug a list is created with: the one given, unless empty, or the first free one made from the name. */
  function ChosenSlug(shelf: Shelf, name: string, slug: Option<string>): string {
    if slug.Some? && slug.value != "" then slug.value else UniqueListSlug(shelf.lists, name, None)
  }

  predicate HasSlug(lists: seq<UserList>, userId: int, slug: string) {
    exists i | 0 <= i < |lists| :: lists[i].userId == userId && lists[i].slug == slug
  }

  /**
   * With a new id and key, creating a list conflicts exactly when the slug is reserved or, the key fitting its
   * column, another list of the user's has it; it succeeds exactly when neither holds and the key fits.
   */
  lemma CreatedExactlyWhenFree(shelf: Shelf, userId: int, name: string, slug: Option<string>, id: Uuid, drawn: Uuid, width: nat)
    requires forall i | 0 <= i < |shelf.lists| :: shelf.lists[i].id != id && shelf.lists[i].listKey != CustomKey(drawn)
    ensures var chosen, reply := ChosenSlug(shelf, name, slug), Create(shelf, userId, name, slug, id, drawn, width).reply;
            && (reply.Saved? <==> !Reserved(chosen) && 43 <= width && !HasSlug(shelf.lists, userId, chosen))
            && (reply.Conflict? <==> Reserved(chosen) || (43 <= width && HasSlug(shelf.lists, userId, chosen)))
  {
    var lists, chosen := shelf.lists, ChosenSlug(shelf, name, slug);
    var list := UserList(id, userId, name, chosen, CustomKey(drawn), false);
    assert |CustomKey(drawn)| == 43;
    assert ListClash(lists, |lists|, list) <==> HasSlug(lists, userId, chosen) by {
      if i :| 0 <= i < |lists| && lists[i].userId == userId && lists[i].slug == chosen { assert ListClash(lists, |lists|, list); }
      if ListClash(lists, |lists|, list) {
        var k :| 0 <= k < |lists| && k != |lists| &&
                 (lists[k].id == list.id || (lists[k].userId == list.userId && (lists[k].slug == list.slug || lists[k].listKey == list.listKey)));
        assert lists[k].userId == userId && lists[k].slug == chosen;
      }
    }
  }

  /** A generated slug is nobody's, so it conflicts exactly when it is a reserved word. */
  lemma GeneratedSlugIsFree(shelf: Shelf, userId: int, name: string, id: Uuid, drawn: Uuid, width: nat)
    requires forall i | 0 <= i < |shelf.lists| :: shelf.lists[i].id != id && shelf.lists[i].listKey != CustomKey(drawn)
    ensures var slug, reply := UniqueListSlug(shelf.lists, name, None), Create(shelf, userId, name, None, id, drawn, width).reply;
            (reply.Conflict? <==> Reserved(slug)) && (reply.Saved? <==> !Reserved(slug) && 43 <= width)
  {
    CreatedExactlyWhenFree(shelf, userId, name, None, id, drawn, width);
    assert !Taken(shelf.lists, UniqueListSlug(shelf.lists, name, None), None);
  }

  /** `custom:` and 36 more characters: the declared width of list_key takes no custom list at all. */
  lemma NoCustomListFits(shelf: Shelf, userId: int, name: string, slug: Option<string>, id: Uuid, drawn: Uuid)
    ensures Create(shelf, userId, name, slug, id, drawn, LIST_KEY_WIDTH).shelf == shelf
    ensures !Create(shelf, userId, name, slug, id, drawn, LIST_KEY_WIDTH).reply.Saved?
  {
    assert |CustomKey(drawn)| == 43;
  }

  // ---- What each operation writes, and why it refuses ----

  /** Favorites, Watchlist and Watched, each under its lower-case word. */
  lemma SystemListsSpelledOut(id: Uuid, userId: int, k: nat)
    requires k < |SYSTEM_LISTS|
    ensures |SYSTEM_LISTS| == 3
    ensures var l := NewSystemList(id, userId, SYSTEM_LISTS[k]);
            l.id == id && l.userId == userId && l.isSystem && l.slug == l.listKey && l.name == ["Favorites", "Watchlist", "Watched"][k] &&
            l.slug == ["favorites", "watchlist", "watched"][k]
  {
  }

  /** The row is system list number `k`, which the user did not have. */
  predicate WasLacking(row: UserList, lists: seq<UserList>, userId: int, id: Uuid, k: nat)
    requires k < |SYSTEM_LISTS|
  {
    row == NewSystemList(id, userId, SYSTEM_LISTS[k]) &&
    forall i | 0 <= i < |lists| :: !(lists[i].userId == userId && lists[i].listKey == SYSTEM_LISTS[k].listKey)
  }

  predicate IsMissingSystemList(row: UserList, lists: seq<UserList>, userId: int, ids: seq<Uuid>)
    requires |ids| == |SYSTEM_LISTS|
  {
    exists k | 0 <= k < |SYSTEM_LISTS| :: WasLacking(row, lists, userId, ids[k], k)
  }

  /** What is added are system lists the user lacked, and nothing else changes. */
  lemma EnsureWrites(shelf: Shelf, userId: int, ids: seq<Uuid>)
    requires |ids| == |SYSTEM_LISTS|
    ensures var after := EnsureSystemLists(shelf, userId, ids).shelf;
            && after.items == shelf.items && shelf.lists <= after.lists
            && forall row | row in after.lists[|shelf.lists|..] :: IsMissingSystemList(row, shelf.lists, userId, ids)
  {
    var lists, after := shelf.lists, EnsureSystemLists(shelf, userId, ids).shelf;
    var rows := ToCreate(lists, userId, ids, |SYSTEM_LISTS|);
    ToCreateFacts(lists, userId, ids, |SYSTEM_LISTS|);
    assert after.lists[|lists|..] == [] || after.lists[|lists|..] == rows;
    forall row | row in rows ensures IsMissingSystemList(row, lists, userId, ids) {
      var k :| 0 <= k < |SYSTEM_LISTS| && CreatedFrom(row, lists, userId, ids, k);
      assert WasLacking(row, lists, userId, ids[k], k);
    }
  }

  /** A created list has the given name, the slug given or else made from the name, and a custom key; nothing else changes. */
  lemma CreatedListIsAsAsked(shelf: Shelf, userId: int, name: string, slug: Option<string>, id: Uuid, drawn: Uuid, width: nat)
    ensures var call, n := Create(shelf, userId, name, slug, id, drawn, width), |shelf.lists|;
            if call.reply.Saved? then
              var l := call.reply.list;
              call.shelf == shelf.(lists := shelf.lists + [l]) && l.id == id && l.userId == userId && l.name == name && !l.isSystem &&
              l.listKey == "custom:" + drawn && (slug.Some? && slug.value != "" ==> l.slug == slug.value) &&
              (slug.None? || slug.value == "" ==> l.slug == UniqueListSlug(shelf.lists, name, None))
            else call.shelf == shelf
  {
  }

  /** The list is this user's, found by its id. */
  predicate IsListOf(l: UserList, userId: int, listId: string) { l.id == listId && l.userId == userId }

  lemma FindsTheList(lists: seq<UserList>, userId: int, listId: string)
    requires UniqueLists(lists)
    ensures forall i | 0 <= i < |lists| && IsListOf(lists[i], userId, listId) :: ListOf(lists, userId, listId) == i
    ensures (forall i | 0 <= i < |lists| :: !IsListOf(lists[i], userId, listId)) <==> ListOf(lists, userId, listId) == |lists|
  {
    var k := ListOf(lists, userId, listId);
    forall i | 0 <= i < |lists| && IsListOf(lists[i], userId, listId) ensures k == i {}
    if k < |lists| { assert IsListOf(lists[k], userId, listId); }
  }

  /** Nobody's list, and a list of somebody else's, are not found by any operation on one list, and nothing changes. */
  lemma UnknownListsAreNotFound(shelf: Shelf, userId: int, listId: string, name: Option<string>, slug: Option<string>,
                                mediaType: MediaType, tmdbId: int, title: Option<string>)
    requires Inv(shelf) && forall i | 0 <= i < |shelf.lists| :: !IsListOf(shelf.lists[i], userId, listId)
    ensures Update(shelf, userId, listId, name, slug) == Call(shelf, NotFound) == Remove(shelf, userId, listId)
    ensures AddItem(shelf, userId, listId, mediaType, tmdbId, title) == Call(shelf, NotFound) == RemoveItem(shelf, userId, listId, mediaType, tmdbId)
  {
    FindsTheList(shelf.lists, userId, listId);
  }

  /**
   * An update of a system list is forbidden; of a custom one it conflicts exactly when a slug is given that is reserved
   * or another list of the user's; otherwise the name and slug that are given, and nothing else, are written.
   */
  lemma UpdateWrites(shelf: Shelf, userId: int, i: nat, name: Option<string>, slug: Option<string>)
    requires Inv(shelf) && i < |shelf.lists| && shelf.lists[i].userId == userId
    ensures var was, call := shelf.lists[i], Update(shelf, userId, shelf.lists[i].id, name, slug);
            if was.isSystem then call == Call(shelf, Forbidden)
            else if slug.Some? && (Reserved(slug.value) ||
                                   exists k | 0 <= k < |shelf.lists| && k != i :: shelf.lists[k].userId == userId && shelf.lists[k].slug == slug.value)
            then call == Call(shelf, Conflict)
            else call.reply.Saved? && call.shelf == shelf.(lists := shelf.lists[i := call.reply.list]) &&
                 call.reply.list == was.(name := if name.Some? then name.value else was.name, slug := if slug.Some? then slug.value else was.slug)
  {
    var lists, was := shelf.lists, shelf.lists[i];
    FindsTheList(lists, userId, was.id);
    assert IsListOf(was, userId, was.id);
    forall k | 0 <= k < |lists| && k != i
      ensures lists[k].id != was.id && (lists[k].userId == userId ==> lists[k].slug != was.slug && lists[k].listKey != was.listKey)
    {
      if k < i { assert lists[k].id != lists[i].id; } else { assert lists[i].id != lists[k].id; }
    }
  }

  /** Removing a system list is forbidden; removing a custom one takes it and exactly its items away. */
  lemma RemoveWrites(shelf: Shelf, userId: int, i: nat)
    requires Inv(shelf) && i < |shelf.lists| && shelf.lists[i].userId == userId
    ensures var was, call := shelf.lists[i], Remove(shelf, userId, shelf.lists[i].id);
            if was.isSystem then call == Call(shelf, Forbidden)
            else call.reply.Removed? && call.shelf.lists == shelf.lists[..i] + shelf.lists[i + 1..] &&
                 forall x :: x in call.shelf.items <==> x in shelf.items && x.listId != was.id
  {
    FindsTheList(shelf.lists, userId, shelf.lists[i].id);
    assert IsListOf(shelf.lists[i], userId, shelf.lists[i].id);
  }

  /**
   * Adding a title that is on the list answers with the item there and changes nothing; one the catalogue has no title
   * for is refused; any other is added with what was asked.
   */
  lemma AddItemWrites(shelf: Shelf, userId: int, i: nat, mediaType: MediaType, tmdbId: int, title: Option<string>)
    requires Inv(shelf) && i < |shelf.lists| && shelf.lists[i].userId == userId
    ensures var was, call := shelf.lists[i], AddItem(shelf, userId, shelf.lists[i].id, mediaType, tmdbId, title);
            if exists k | 0 <= k < |shelf.items| :: IsItem(shelf.items[k], was.id, mediaType, tmdbId)
            then call.shelf == shelf && call.reply.ItemSaved? && call.reply.item in shelf.items && IsItem(call.reply.item, was.id, mediaType, tmdbId)
            else if title.None? || title.value == "" then call == Call(shelf, BadRequest)
            else call.reply == ItemSaved(Item(was.id, userId, mediaType, tmdbId, title.value)) &&
                 call.shelf == shelf.(items := shelf.items + [call.reply.item])
  {
    FindsTheList(shelf.lists, userId, shelf.lists[i].id);
    assert IsListOf(shelf.lists[i], userId, shelf.lists[i].id);
    var k := ItemOf(shelf.items, shelf.lists[i].id, mediaType, tmdbId);
    assert k < |shelf.items| ==> IsItem(shelf.items[k], shelf.lists[i].id, mediaType, tmdbId);
  }

  /** Removing a title takes the one item away, or reports that it is not there. */
  lemma RemoveItemWrites(shelf: Shelf, userId: int, i: nat, mediaType: MediaType, tmdbId: int)
    requires Inv(shelf) && i < |shelf.lists| && shelf.lists[i].userId == userId
    ensures var was, call := shelf.lists[i], RemoveItem(shelf, userId, shelf.lists[i].id, mediaType, tmdbId);
            && call.shelf.lists == shelf.lists
            && (call.reply == NotFound <==> forall k | 0 <= k < |shelf.items| :: !IsItem(shelf.items[k], was.id, mediaType, tmdbId))
            && (call.reply == NotFound ==> call.shelf == shelf)
            && forall k | 0 <= k < |shelf.items| && IsItem(shelf.items[k], was.id, mediaType, tmdbId) ::
                 call == Call(shelf.(items := shelf.items[..k] + shelf.items[k + 1..]), Removed)
  {
    FindsTheList(shelf.lists, userId, shelf.lists[i].id);
    assert IsListOf(shelf.lists[i], userId, shelf.lists[i].id);
    var j := ItemOf(shelf.items, shelf.lists[i].id, mediaType, tmdbId);
    forall k | 0 <= k < |shelf.items| && IsItem(shelf.items[k], shelf.lists[i].id, mediaType, tmdbId) ensures k == j {}
  }

  // ---- The service ----

  class ListsService {
    var lists: seq<UserList>
    var items: seq<Item>
    const keyWidth: nat

    function View(): Shelf
      reads this
    {
      Shelf(lists, items)
    }

    constructor (keyWidth: nat)
      ensures View() == Shelf([], []) && Inv(View()) && this.keyWidth == keyWidth
    {
      lists, items := [], [];
      this.keyWidth := keyWidth;
    }

    method EnsureSystemListsFor(userId: int, ids: seq<Uuid>) returns (reply: Reply)
      requires Inv(View()) && |ids| == |SYSTEM_LISTS|
      modifies this
      ensures Call(View(), reply) == EnsureSystemLists(old(View()), userId, ids)
      ensures Inv(View())
    {
      EnsureKeepsInv(View(), userId, ids);
      var toCreate := MissingSystemLists(userId, ids);
      CreatedAreFound(lists, userId, ids, |SYSTEM_LISTS|);
      if !Accepts(lists, toCreate) { return DatabaseError; }
      lists := lists + toCreate;
      reply := Lists(SystemListsOf(lists, userId));
    }

    method MissingSystemLists(userId: int, ids: seq<Uuid>) returns (toCreate: seq<UserList>)
      requires |ids| == |SYSTEM_LISTS|
      ensures toCreate == ToCreate(lists, userId, ids, |SYSTEM_LISTS|)
    {
      toCreate := [];
      for k := 0 to |SYSTEM_LISTS|
        invariant toCreate == ToCreate(lists, userId, ids, k)
      {
        var sys := SYSTEM_LISTS[k];
        if ByKey(lists, userId, sys.listKey) == |lists| {
          toCreate := toCreate + [UserList(ids[k], userId, sys.name, sys.slug, sys.listKey, true)];
        }
      }
    }

    method CreateList(userId: int, name: string, slug: Option<string>, id: Uuid, drawn: Uuid) returns (reply: Reply)
      requires Inv(View())
      modifies this
      ensures Call(View(), reply) == Create(old(View()), userId, name, slug, id, drawn, keyWidth)
      ensures Inv(View())
    {
      CreateKeepsInv(View(), userId, name, slug, id, drawn, keyWidth);
      var chosen;
      if slug.Some? && slug.value != "" {
        chosen := slug.value;
      } else {
        var probes;
        chosen, probes := GenerateUniqueListSlug(name, lists, None);
      }
      if Reserved(chosen) { return Conflict; }
      var list := UserList(id, userId, name, chosen, CustomKey(drawn), false);
      if |list.listKey| > keyWidth { return DatabaseError; }
      if ListClash(lists, |lists|, list) { return Conflict; }
      lists := lists + [list];
      reply := Saved(list);
    }

    method UpdateList(userId: int, listId: string, name: Option<string>, slug: Option<string>) returns (reply: Reply)
      requires Inv(View())
      modifies this
      ensures Call(View(), reply) == Update(old(View()), userId, listId, name, slug)
      ensures Inv(View())
    {
      UpdateKeepsInv(View(), userId, listId, name, slug);
      var i := ListOf(lists, userId, listId);
      if i == |lists| { return NotFound; }
      var list := lists[i];
      if list.isSystem { return Forbidden; }
      if name.Some? { list := list.(name := name.value); }
      if slug.Some? {
        if Reserved(slug.value) { return Conflict; }
        if slug.value != list.slug {
          list := list.(slug := slug.value);
          if ListClash(lists, i, list) { return Conflict; }
          lists := lists[i := list];
          return Saved(list);
        }
      }
      lists := lists[i := list];
      reply := Saved(list);
    }

    method RemoveList(userId: int, listId: string) returns (reply: Reply)
      requires Inv(View())
      modifies this
      ensures Call(View(), reply) == Remove(old(View()), userId, listId)
      ensures Inv(View())
    {
      RemoveKeepsInv(View(), userId, listId);
      var i := ListOf(lists, userId, listId);
      if i == |lists| { return NotFound; }
      if lists[i].isSystem { return Forbidden; }
      items := WithoutList(items, lists[i].id);
      lists := lists[..i] + lists[i + 1..];
      reply := Removed;
    }

    method AddListItem(userId: int, listId: string, mediaType: MediaType, tmdbId: int, title: Option<string>)
      returns (reply: Reply)
      requires Inv(View())
      modifies this`items
      ensures Call(View(), reply) == AddItem(old(View()), userId, listId, mediaType, tmdbId, title)
      ensures Inv(View())
    {
      AddItemKeepsInv(View(), userId, listId, mediaType, tmdbId, title);
      var i := ListOf(lists, userId, listId);
      if i == |lists| { return NotFound; }
      var existing := ItemOf(items, lists[i].id, mediaType, tmdbId);
      if existing < |items| { return ItemSaved(items[existing]); }
      if title.None? || title.value == "" { return BadRequest; }
      var item := Item(lists[i].id, userId, mediaType, tmdbId, title.value);
      items := items + [item];
      reply := ItemSaved(item);
    }

    method RemoveListItem(userId: int, listId: string, mediaType: MediaType, tmdbId: int) returns (reply: Reply)
      requires Inv(View())
      modifies this`items
      ensures Call(View(), reply) == RemoveItem(old(View()), userId, listId, mediaType, tmdbId)
      ensures Inv(View())
    {
      RemoveItemKeepsInv(View(), userId, listId, mediaType, tmdbId);
      var i := ListOf(lists, userId, listId);
      if i == |lists| { return NotFound; }
      var k := ItemOf(items, lists[i].id, mediaType, tmdbId);
      if k == |items| { return NotFound; }
      items := items[..k] + items[k + 1..];
      reply := Removed;
    }
  }
}
