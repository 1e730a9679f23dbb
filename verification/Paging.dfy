/**
 The market list: pages by (name, id) and role, the head page from a cache, and the client that
 follows next_offset. Names are compared character by character.
 */
module Paging {
  import opened Wrappers
  import opened Markets
  import opened Query

  const MAX_INT := 0x7FFF_FFFF_FFFF_FFFF
  const MAX_UINT64 := 0xFFFF_FFFF_FFFF_FFFF

  datatype Role = Admin | Viewer | User

  datatype UserRole = Known(role: Role) | Unknown

  /** A market as a query returns it. */
  datatype Row = Row(id: MarketId, market: Market)

  type Table = map<MarketId, Market>

  datatype View =
    | Page(rows: seq<Row>, nextOffset: nat, hasMore: bool)
    | MarketsNotFound
    | InvalidPagination
    | NoRole
    | Failed

  // ----- The order by (name, id) -----

  predicate TextLess(a: string, b: string) {
    b != "" && (a == "" || a[0] < b[0] || (a[0] == b[0] && TextLess(a[1..], b[1..])))
  }

  lemma {:induction false} TextLessTotal(a: string, b: string)
    ensures a == b || TextLess(a, b) || TextLess(b, a)
    ensures !(TextLess(a, b) && TextLess(b, a)) && !TextLess(a, a)
    decreases |a|
  {
    if a != "" {
      if b != "" {
        TextLessTotal(a[1..], b[1..]);
        assert a == [a[0]] + a[1..] && b == [b[0]] + b[1..];
      } else {
        TextLessTotal(a[1..], a[1..]);
      }
    }
  }

  /** Texts are ordered by the first character in which they differ, and a proper prefix comes first. */
  predicate DifferAt(a: string, b: string, i: nat) {
    i <= |a| && i < |b| && a[..i] == b[..i] && (i == |a| || a[i] < b[i])
  }

  lemma {:induction false} TextLessExactly(a: string, b: string)
    ensures TextLess(a, b) <==> exists i: nat :: DifferAt(a, b, i)
  {
    if b == "" {
    } else if a == "" || a[0] < b[0] {
      assert DifferAt(a, b, 0);
    } else if a[0] == b[0] {
      TextLessExactly(a[1..], b[1..]);
      if i: nat :| DifferAt(a[1..], b[1..], i) {
        assert a[..i + 1] == [a[0]] + a[1..][..i] && b[..i + 1] == [b[0]] + b[1..][..i];
        assert DifferAt(a, b, i + 1);
      }
      if i: nat :| DifferAt(a, b, i) {
        assert i > 0;
        assert a[1..][..i - 1] == a[..i][1..] && b[1..][..i - 1] == b[..i][1..];
        assert DifferAt(a[1..], b[1..], i - 1);
      }
    } else {
      assert forall i: nat | 0 < i <= |a| && i < |b| :: a[..i][0] == a[0] && b[..i][0] == b[0];
    }
  }

  lemma {:induction false} TextLessTransitive(a: string, b: string, c: string)
    requires TextLess(a, b) && TextLess(b, c)
    ensures TextLess(a, c)
    decreases |a|
  {
    if a != "" && a[0] == b[0] == c[0] {
      TextLessTransitive(a[1..], b[1..], c[1..]);
    }
  }

  predicate RowLess(table: Table, x: MarketId, y: MarketId) {
    && x in table && y in table
    && (TextLess(table[x].name, table[y].name) || (table[x].name == table[y].name && x < y))
  }

  /** ORDER BY name, id. */
  function ByName(table: Table): (MarketId, MarketId) -> bool {
    (x: MarketId, y: MarketId) => RowLess(table, x, y)
  }

  predicate Sees(role: Role, market: Market) {
    match role
    case Admin => true
    case Viewer => market.deletedAt.None?
    case User => market.deletedAt.None? && market.enabled
  }

  function Visible(table: Table, role: Role): set<MarketId> {
    set id | id in table && Sees(role, table[id])
  }

  lemma ByNameTotal(table: Table, role: Role)
    ensures StrictTotal(ByName(table), Visible(table, role))
  {
    forall x, y | x in table && y in table
      ensures x != y ==> RowLess(table, x, y) || RowLess(table, y, x)
      ensures !RowLess(table, x, x)
    {
      TextLessTotal(table[x].name, table[y].name);
      TextLessTotal(table[x].name, table[x].name);
    }
    forall x, y, z | RowLess(table, x, y) && RowLess(table, y, z) ensures RowLess(table, x, z) {
      if TextLess(table[x].name, table[y].name) && TextLess(table[y].name, table[z].name) {
        TextLessTransitive(table[x].name, table[y].name, table[z].name);
      }
    }
  }

  /** The ids a role may see, in order. */
  ghost function VisibleList(table: Table, role: Role): (ids: seq<MarketId>)
    ensures AllIn(table, ids)
  {
    ByNameTotal(table, role);
    ListingLists(Visible(table, role), ByName(table));
    Listing(Visible(table, role), ByName(table))
  }

  lemma VisibleListed(table: Table, role: Role)
    ensures Lists(Visible(table, role), ByName(table), VisibleList(table, role))
  {
    ByNameTotal(table, role);
    ListingLists(Visible(table, role), ByName(table));
  }

  predicate AllIn(table: Table, ids: seq<MarketId>) {
    forall i | 0 <= i < |ids| :: ids[i] in table
  }

  function RowsOf(table: Table, ids: seq<MarketId>): (rows: seq<Row>)
    requires AllIn(table, ids)
    ensures |rows| == |ids|
    ensures forall i | 0 <= i < |ids| :: rows[i] == Row(ids[i], table[ids[i]])
  {
    seq(|ids|, i requires 0 <= i < |ids| => Row(ids[i], table[ids[i]]))
  }

  /** All rows a role may see, in order. */
  ghost function AllRows(table: Table, role: Role): seq<Row> {
    RowsOf(table, VisibleList(table, role))
  }

  // ----- The query -----

  /** What a request for a page means: the rows from offset on, and whether and where it goes on. */
  ghost function Direct(table: Table, role: Role, limit: nat, offset: nat): View {
    var all := AllRows(table, role);
    var hasMore := offset + limit < |all|;
    if table == map[] && offset == 0 then MarketsNotFound
    else Page(Slice(all, offset, limit), if hasMore then offset + limit else 0, hasMore)
  }

  lemma SliceRows(table: Table, ids: seq<MarketId>, offset: nat, limit: nat)
    requires AllIn(table, ids)
    ensures AllIn(table, Slice(ids, offset, limit))
    ensures RowsOf(table, Slice(ids, offset, limit)) == Slice(RowsOf(table, ids), offset, limit)
  {
  }

  lemma EmptyTable(table: Table, role: Role)
    requires AllRows(table, role) != []
    ensures table != map[]
  {
    assert VisibleList(table, role)[0] in table;
  }

  /** dtoMarketsToDomain. */
  method ToDomain(table: Table, ids: seq<MarketId>) returns (rows: seq<Row>)
    requires AllIn(table, ids)
    ensures rows == RowsOf(table, ids)
  {
    rows := [];
    for i := 0 to |ids|
      invariant rows == RowsOf(table, ids)[..i]
    {
      rows := rows + [Row(ids[i], table[ids[i]])];
    }
  }

  /** GetMarketsPage: one row more than the limit; None when the whole table is empty. */
  method GetMarketsPage(table: Table, role: Role, limit: nat, offset: nat) returns (rows: Option<seq<Row>>)
    requires limit + 1 <= MAX_INT && offset <= MAX_INT
    ensures rows == if table == map[] && offset == 0 then None else Some(Slice(AllRows(table, role), offset, limit + 1))
  {
    ByNameTotal(table, role);
    var ids := Select(Visible(table, role), ByName(table), limit + 1, offset);
    SliceRows(table, VisibleList(table, role), offset, limit + 1);
    var page := ToDomain(table, ids);
    assert page == Slice(AllRows(table, role), offset, limit + 1);
    if page == [] && offset == 0 && table == map[] {
      return None;
    }
    if page != [] {
      EmptyTable(table, role);
    }
    rows := Some(page);
  }

  // ----- The viewer -----

  /** effectiveUserRole: the most privileged known role. */
  method EffectiveUserRole(roles: seq<UserRole>) returns (role: Option<Role>)
    ensures role == MostPrivileged(roles)
    ensures role == Some(Admin) <==> Known(Admin) in roles
    ensures role == Some(Viewer) <==> Known(Admin) !in roles && Known(Viewer) in roles
    ensures role == Some(User) <==> Known(Admin) !in roles && Known(Viewer) !in roles && Known(User) in roles
  {
    role := None;
    for i := 0 to |roles|
      invariant Known(Admin) !in roles[..i]
      invariant role == MostPrivileged(roles[..i])
    {
      assert roles[..i + 1] == roles[..i] + [roles[i]];
      match roles[i]
      case Known(Admin) => return Some(Admin);
      case Known(Viewer) => role := Some(Viewer);
      case Known(User) =>
        if role.None? {
          role := Some(User);
        }
      case Unknown =>
    }
    assert roles[..|roles|] == roles;
  }

  function MostPrivileged(roles: seq<UserRole>): Option<Role> {
    if Known(Admin) in roles then Some(Admin)
    else if Known(Viewer) in roles then Some(Viewer)
    else if Known(User) in roles then Some(User)
    else None
  }

  /** There is no role exactly if no role is known. */
  lemma RoleOfKnown(roles: seq<UserRole>)
    ensures MostPrivileged(roles).None? <==> forall i | 0 <= i < |roles| :: roles[i] == UserRole.Unknown
  {
    if MostPrivileged(roles).None? {
      forall i | 0 <= i < |roles| ensures roles[i] == UserRole.Unknown {
        assert roles[i] in roles;
        match roles[i] {
          case Known(Admin) =>
          case Known(Viewer) =>
          case Known(User) =>
          case Unknown =>
        }
      }
    }
  }

  /** An empty table has no first page, for any role. */
  lemma EmptyTableNotFound(role: Role, limit: nat)
    ensures Direct(map[], role, limit, 0) == MarketsNotFound
  {
  }

  /** buildPageResponse: the rows up to the limit; there is more if one was left over. */
  function BuildPageResponse(rows: seq<Row>, limit: nat, offset: nat): View {
    var hasMore := |rows| > limit;
    if hasMore && offset > MAX_UINT64 - limit then InvalidPagination
    else Page(if hasMore then rows[..limit] else rows, if hasMore then offset + limit else 0, hasMore)
  }

  lemma PageOfDirect(table: Table, role: Role, size: nat, limit: nat, offset: nat)
    requires limit < size && offset + limit <= MAX_UINT64
    requires table != map[] || offset > 0
    ensures BuildPageResponse(Slice(AllRows(table, role), offset, size), limit, offset) == Direct(table, role, limit, offset)
  {
    var all := AllRows(table, role);
    var rows := Slice(all, offset, size);
    if |rows| > limit {
      assert rows[..limit] == Slice(all, offset, limit);
    } else {
      assert rows == Slice(all, offset, limit);
    }
  }

  /** A page of at most n rows, which is full and says where to go on when there is more. */
  predicate WithinLimit(view: View, offset: nat, n: nat) {
    view.Page? ==>
      && |view.rows| <= n
      && (view.hasMore ==> |view.rows| == n && view.nextOffset == offset + n)
      && (!view.hasMore ==> view.nextOffset == 0)
  }

  /** Deleted markets are for admins, disabled ones for admins and viewers. */
  predicate ShowsOnlyAllowed(roles: seq<UserRole>, rows: seq<Row>) {
    forall i | 0 <= i < |rows| ::
      && (rows[i].market.deletedAt.Some? ==> Known(Admin) in roles)
      && (!rows[i].market.enabled ==> Known(Admin) in roles || Known(Viewer) in roles)
  }

  lemma DirectShowsAllowed(table: Table, roles: seq<UserRole>, limit: nat, offset: nat)
    requires MostPrivileged(roles).Some?
    ensures
      var view := Direct(table, MostPrivileged(roles).value, limit, offset);
      view.Page? ==> ShowsOnlyAllowed(roles, view.rows)
  {
    var role := MostPrivileged(roles).value;
    VisibleListed(table, role);
    var ids := VisibleList(table, role);
    forall i | 0 <= i < |ids| ensures ids[i] in Visible(table, role) {
      assert ids[i] in ids;
    }
  }

  /** More rows behind an offset that does not fit a uint64 are refused. */
  lemma OverflowRefused(rows: seq<Row>, limit: nat, offset: nat)
    ensures limit <= MAX_UINT64 && |rows| > limit && offset + limit > MAX_UINT64 ==>
              BuildPageResponse(rows, limit, offset) == InvalidPagination
  {
  }

  class MarketViewer {
    const defaultLimit: nat
    const maxLimit: nat
    const cacheLimit: nat
    var table: Table
    var cache: map<Role, seq<Row>>

    /** Every limit leaves room for the two rows that are read on top of it. */
    predicate Configured() {
      defaultLimit + 2 <= MAX_INT && maxLimit + 2 <= MAX_INT && cacheLimit + 2 <= MAX_INT
    }

    /** The cached head pages are those of the present table. */
    ghost predicate Fresh()
      reads this
    {
      forall role | role in cache :: table != map[] && cache[role] == Slice(AllRows(table, role), 0, cacheLimit + 2)
    }

    constructor (table: Table, defaultLimit: nat, maxLimit: nat, cacheLimit: nat)
      requires defaultLimit + 2 <= MAX_INT && maxLimit + 2 <= MAX_INT && cacheLimit + 2 <= MAX_INT
      ensures Configured() && Fresh() && this.table == table && cache == map[]
      ensures this.defaultLimit == defaultLimit && this.maxLimit == maxLimit && this.cacheLimit == cacheLimit
    {
      this.table, this.defaultLimit, this.maxLimit, this.cacheLimit := table, defaultLimit, maxLimit, cacheLimit;
      cache := map[];
    }

    function Normalized(limit: nat): nat {
      if limit == 0 then defaultLimit else if limit > maxLimit then maxLimit else limit
    }

    /** tryLoadHeadPage: from the cache if it can be read, else from the table, which fills the cache. */
    method TryLoadHeadPage(role: Role, limit: nat, dbOk: bool) returns (view: View)
      requires Configured() && limit <= cacheLimit
      modifies this`cache
      ensures old(Fresh()) ==> Fresh() && (view == Direct(table, role, limit, 0) || (view == Failed && !dbOk))
      ensures WithinLimit(view, 0, limit) && view != NoRole
      ensures role !in old(cache) ==> view == if dbOk then Direct(table, role, limit, 0) else Failed
    {
      var readable: bool := *;
      if role in cache && readable {
        view := BuildPageResponse(cache[role], limit, 0);
        if Fresh() {
          PageOfDirect(table, role, cacheLimit + 2, limit, 0);
        }
      } else if dbOk {
        view := LoadHeadPage(role, limit);
      } else {
        view := Failed;
      }
    }

    /** The second half of tryLoadHeadPage. */
    method LoadHeadPage(role: Role, limit: nat) returns (view: View)
      requires Configured() && limit <= cacheLimit
      modifies this`cache
      ensures view == Direct(table, role, limit, 0)
      ensures old(Fresh()) ==> Fresh()
    {
      var head := GetMarketsPage(table, role, cacheLimit + 1, 0);
      if head.None? {
        return MarketsNotFound;
      }
      PageOfDirect(table, role, cacheLimit + 2, limit, 0);
      view := BuildPageResponse(head.value, limit, 0);
      var writable: bool := *;
      if writable {
        cache := cache[role := head.value];
      }
    }

    /** The head page if it is kept, else the page from the table. */
    method ViewPage(role: Role, n: nat, offset: nat, dbOk: bool) returns (view: View)
      requires Configured() && n + 2 <= MAX_INT && offset <= MAX_INT
      modifies this`cache
      ensures old(Fresh()) || offset > 0 || n > cacheLimit ==>
                view == Direct(table, role, n, offset) || (view == Failed && !dbOk)
      ensures WithinLimit(view, offset, n) && view != NoRole
      ensures old(Fresh()) ==> Fresh()
    {
      if offset == 0 && n <= cacheLimit {
        view := TryLoadHeadPage(role, n, dbOk);
        return;
      }
      if !dbOk {
        return Failed;
      }
      var rows := GetMarketsPage(table, role, n, offset);
      if rows.None? {
        return MarketsNotFound;
      }
      PageOfDirect(table, role, n + 1, n, offset);
      view := BuildPageResponse(rows.value, n, offset);
    }

    /** ViewMarkets: while the cache is fresh, the answer is the direct query's. */
    method ViewMarkets(roles: seq<UserRole>, limit: nat, offset: nat, dbOk: bool) returns (view: View)
      requires Configured()
      modifies this`cache
      ensures view == NoRole <==> MostPrivileged(roles).None?
      ensures MostPrivileged(roles).Some? && offset > MAX_INT ==> view == InvalidPagination
      ensures MostPrivileged(roles).Some? && offset <= MAX_INT
              && (old(Fresh()) || offset > 0 || Normalized(limit) > cacheLimit) ==>
                || (view == Direct(table, MostPrivileged(roles).value, Normalized(limit), offset)
                    && (view.Page? ==> ShowsOnlyAllowed(roles, view.rows)))
                || (view == Failed && !dbOk)
      ensures limit == 0 ==> WithinLimit(view, offset, defaultLimit)
      ensures 0 < limit <= maxLimit ==> WithinLimit(view, offset, limit)
      ensures limit > maxLimit && limit > 0 ==> WithinLimit(view, offset, maxLimit)
      ensures old(Fresh()) ==> Fresh()
    {
      var role := EffectiveUserRole(roles);
      if role.None? {
        return NoRole;
      }
      var n := Normalized(limit);
      if offset > MAX_INT {
        return InvalidPagination;
      }
      DirectShowsAllowed(table, roles, n, offset);
      view := ViewPage(role.value, n, offset, dbOk);
    }

    /** RefreshAll: whatever was cached before, afterwards the cache is fresh. */
    method RefreshAll() returns (ok: bool)
      requires Configured()
      modifies this`cache
      ensures ok ==> Fresh()
      ensures ok && table != map[] ==> cache.Keys == {Admin, Viewer, User}
    {
      var roles := [Admin, Viewer, User];
      for i := 0 to |roles|
        invariant table == map[] ==> i == 0
        invariant forall k | 0 <= k < i ::
                    roles[k] in cache && cache[roles[k]] == Slice(AllRows(table, roles[k]), 0, cacheLimit + 2)
      {
        ok := *;
        if !ok {
          return;
        }
        var head := GetMarketsPage(table, roles[i], cacheLimit + 1, 0);
        if head.None? {
          ok := InvalidateMarketsCache();
          return;
        }
        ok := *;
        if !ok {
          return;
        }
        cache := cache[roles[i] := head.value];
      }
      assert roles[0] in cache && roles[1] in cache && roles[2] in cache;
      forall role | role in cache ensures cache[role] == Slice(AllRows(table, role), 0, cacheLimit + 2) {
        assert role == roles[0] || role == roles[1] || role == roles[2];
      }
      ok := true;
    }

    method InvalidateMarketsCache() returns (ok: bool)
      modifies this`cache
      ensures ok ==> cache == map[]
    {
      var roles := [Admin, Viewer, User];
      for i := 0 to |roles|
        invariant forall k | 0 <= k < i :: roles[k] !in cache
      {
        ok := *;
        if !ok {
          return;
        }
        cache := cache - {roles[i]};
      }
      forall role ensures role !in cache {
        assert role == roles[0] || role == roles[1] || role == roles[2];
      }
      ok := true;
    }
  }

  // ----- Following next_offset -----

  /** The rows a client collects that asks again from next_offset until there is no more. */
  ghost function Collected(table: Table, role: Role, limit: nat, offset: nat): seq<Row>
    requires limit > 0
    decreases |AllRows(table, role)| - offset
  {
    match Direct(table, role, limit, offset)
    case Page(rows, next, hasMore) => if hasMore then rows + Collected(table, role, limit, next) else rows
    case _ => []
  }

  lemma {:induction false} CollectsTheRest(table: Table, role: Role, limit: nat, offset: nat)
    requires limit > 0 && offset <= |AllRows(table, role)|
    ensures Collected(table, role, limit, offset) == AllRows(table, role)[offset..]
    decreases |AllRows(table, role)| - offset
  {
    var all := AllRows(table, role);
    if all != [] {
      EmptyTable(table, role);
    }
    if offset + limit < |all| {
      CollectsTheRest(table, role, limit, offset + limit);
      assert all[offset..] == all[offset..offset + limit] + all[offset + limit..];
    }
  }

  predicate HasRow(rows: seq<Row>, id: MarketId) {
    exists i :: 0 <= i < |rows| && rows[i].id == id
  }

  /** With any limit the client ends up with the visible markets in (name, id) order, each once. */
  lemma PagingVisitsEveryVisibleMarketOnce(table: Table, role: Role, limit: nat)
    requires limit > 0
    ensures
      var rows := Collected(table, role, limit, 0);
      && (forall id :: HasRow(rows, id) <==>
            && id in table
            && (role == Admin || table[id].deletedAt.None?)
            && (role == User ==> table[id].enabled))
      && (forall i | 0 <= i < |rows| :: rows[i].id in table && rows[i].market == table[rows[i].id])
      && (forall i, j | 0 <= i < j < |rows| ::
            TextLess(rows[i].market.name, rows[j].market.name)
            || (rows[i].market.name == rows[j].market.name && rows[i].id < rows[j].id))
  {
    CollectsTheRest(table, role, limit, 0);
    VisibleListed(table, role);
    var rows, ids := Collected(table, role, limit, 0), VisibleList(table, role);
    assert rows == AllRows(table, role);
    forall i, j | 0 <= i < j < |rows| ensures RowLess(table, rows[i].id, rows[j].id) && rows[i].id != rows[j].id {
      assert ByName(table)(ids[i], ids[j]);
      TextLessTotal(table[ids[i]].name, table[ids[j]].name);
    }
    forall id ensures HasRow(rows, id) <==> id in Visible(table, role) {
      assert id in ids <==> id in Visible(table, role);
      if id in ids {
        var i :| 0 <= i < |ids| && ids[i] == id;
        assert rows[i].id == id;
      }
    }
  }

  /** A limit of zero is the one that never gets anywhere: the client is sent back to where it is. */
  lemma ZeroLimitStays(table: Table, role: Role, offset: nat)
    requires offset < |AllRows(table, role)|
    ensures Direct(table, role, 0, offset) == Page([], offset, true)
  {
    EmptyTable(table, role);
  }
}
