/** The listing store of `utils/database.py` as an object: the `listings`
    table and the `address_blacklist` table, the queries that read them and
    the statements that change them. */
module Store {
  import opened Wrappers
  import opened Text
  import opened SqlValues
  import opened Collections
  import opened FilterQuery
  import opened QuerySemantics

  /** Two addresses name the same blacklist entry when they agree once
      lower-cased; this is the key `INSERT OR IGNORE` keeps unique. */
  predicate SameAddress(a: string, b: string) {
    Lower(a) == Lower(b)
  }

  /** A row holding only `address`, as the filtered query's blacklist
      sub-query sees it. */
  function AddressRow(address: string): Row {
    Row(map["address" := SqlText(address)])
  }

  /** No two entries share a key. */
  predicate KeysUnique(blacklist: seq<BlacklistEntry>) {
    forall i, j :: 0 <= i < j < |blacklist| ==> !SameAddress(blacklist[i].address, blacklist[j].address)
  }

  /** `WHERE id = ?` with an integer. */
  predicate HasId(r: Row, id: int) {
    Equal(ValueOf(r, "id"), SqlInt(id))
  }

  /** `WHERE favorite = 1`. */
  predicate IsFavorite(r: Row) {
    Equal(ValueOf(r, "favorite"), SqlInt(1))
  }

  /** `ORDER BY last_updated DESC`. */
  predicate NewerFirst(a: Row, b: Row) {
    DescBefore(ValueOf(a, "last_updated"), ValueOf(b, "last_updated"))
  }

  /** The `favorite` flag `toggle_favorite` writes. */
  function FavoriteFlag(isFavorite: bool): SqlValue {
    SqlInt(if isFavorite then 1 else 0)
  }

  /** `UPDATE listings SET favorite = ? WHERE id = ?` over the rows. */
  function SetFavorite(rows: seq<Row>, id: int, isFavorite: bool): (r: seq<Row>)
    ensures |r| == |rows|
    ensures forall k :: 0 <= k < |rows| && HasId(rows[k], id) ==>
      && ValueOf(r[k], "favorite") == FavoriteFlag(isFavorite)
      && forall col :: col != "favorite" ==> ValueOf(r[k], col) == ValueOf(rows[k], col)
    ensures forall k :: 0 <= k < |rows| && !HasId(rows[k], id) ==> r[k] == rows[k]
  {
    seq(|rows|, k requires 0 <= k < |rows| =>
      if HasId(rows[k], id) then Row(rows[k].values["favorite" := FavoriteFlag(isFavorite)]) else rows[k])
  }

  /** The number of rows `head` keeps for `LIMIT n`: a negative limit is no
      limit at all. */
  function LimitCount(len: nat, limit: Option<int>): (k: nat)
    ensures Truthy(limit) && 0 <= limit.value <= len ==> k == limit.value
    ensures !Truthy(limit) || limit.value < 0 || limit.value >= len ==> k == len
  {
    if Truthy(limit) && 0 <= limit.value < len then limit.value else len
  }

  class ListingStore {
    var listings: seq<Row>
    var blacklist: seq<BlacklistEntry>

    ghost predicate Valid()
      reads this
    {
      KeysUnique(blacklist)
    }

    constructor(listings: seq<Row>, blacklist: seq<BlacklistEntry>)
      requires KeysUnique(blacklist)
      ensures Valid()
      ensures this.listings == listings && this.blacklist == blacklist
    {
      this.listings := listings;
      this.blacklist := blacklist;
    }

    /** `is_address_blacklisted`: the lookup ignores ASCII case, and agrees
      with the exclusion the filtered query applies. */
    function IsAddressBlacklisted(address: string): (b: bool)
      reads this
      ensures b <==> Blacklisted(AddressRow(address), blacklist)
    {
      exists k :: 0 <= k < |blacklist| && Lower(blacklist[k].address) == Lower(address)
    }

    /** `add_to_blacklist`: inserts an entry unless one with the same key is
      there, and says whether it did. */
    method AddToBlacklist(address: string, reason: Option<string>) returns (inserted: bool)
      requires Valid()
      modifies this
      ensures Valid()
      ensures inserted <==> !old(IsAddressBlacklisted(address))
      ensures blacklist == if inserted then old(blacklist) + [BlacklistEntry(address, reason)] else old(blacklist)
      ensures listings == old(listings)
      ensures IsAddressBlacklisted(address)
    {
      if IsAddressBlacklisted(address) {
        inserted := false;
      } else {
        AppendKeepsKeysUnique(blacklist, BlacklistEntry(address, reason));
        blacklist := blacklist + [BlacklistEntry(address, reason)];
        inserted := true;
        assert blacklist[|blacklist| - 1].address == address;
      }
    }

    /** `remove_from_blacklist`: deletes every entry whose address matches
      case-insensitively and says whether there was one. */
    method RemoveFromBlacklist(address: string) returns (removed: bool)
      requires Valid()
      modifies this
      ensures Valid()
      ensures blacklist == Select(old(blacklist), (e: BlacklistEntry) => !SameAddress(e.address, address))
      ensures removed <==> old(IsAddressBlacklisted(address))
      ensures !IsAddressBlacklisted(address)
      ensures |old(blacklist)| - |blacklist| <= 1
      ensures listings == old(listings)
    {
      var keep := (e: BlacklistEntry) => !SameAddress(e.address, address);
      var rest := Select(blacklist, keep);
      SelectShorter(blacklist, keep);
      SelectDropsOneKey(blacklist, address);
      SelectKeepsKeysUnique(blacklist, keep);
      removed := |rest| < |blacklist|;
      blacklist := rest;
      forall k | 0 <= k < |blacklist| ensures !SameAddress(blacklist[k].address, address) {
        assert keep(blacklist[k]);
      }
    }

    /** Whether some row has this id. */
    predicate HasListing(id: int)
      reads this
    {
      exists k :: 0 <= k < |listings| && HasId(listings[k], id)
    }

    /** `toggle_favorite`: nothing changes and the answer is false when no
      row has the id; otherwise the rows with that id get the flag. The
      answer on that path is whether `rowcount`, the count the driver
      reports for the last statement run, is positive. */
    method ToggleFavorite(id: int, isFavorite: bool, rowcount: int) returns (ok: bool)
      modifies this
      ensures !old(HasListing(id)) ==> !ok && listings == old(listings)
      ensures old(HasListing(id)) ==> listings == SetFavorite(old(listings), id, isFavorite) && ok == (rowcount > 0)
      ensures blacklist == old(blacklist)
    {
      if !HasListing(id) {
        return false;
      }
      listings := SetFavorite(listings, id, isFavorite);
      ok := rowcount > 0;
    }

    /** `get_favorites`. */
    function Favorites(): (r: seq<Row>)
      reads this
      ensures SortedBy(r, NewerFirst)
      ensures forall x :: multiset(r)[x] == if IsFavorite(x) then multiset(listings)[x] else 0
    {
      FavoritesExactly(listings);
      SortBy(Select(listings, IsFavorite), NewerFirst)
    }

    /** `get_all_listings`: every row, or the first `limit` when the limit
      is truthy; nothing is excluded and nothing is sorted. */
    function AllListings(limit: Option<int>): (r: seq<Row>)
      reads this
      ensures |r| == LimitCount(|listings|, limit)
      ensures r == listings[..|r|]
    {
      listings[..LimitCount(|listings|, limit)]
    }

    /** `get_filtered_listings`: builds the query, then lets SQLite run it. */
    method GetFilteredListings(fs: seq<Filter>) returns (r: Result<seq<Row>, BuildError>)
      ensures r == FilteredRows(listings, blacklist, fs)
    {
      var built := BuildFilteredQuery(fs);
      match built
      case Failure(e) =>
        r := Failure(e);
      case Success((query, params)) =>
        // SQLite evaluates `query`, whose WHERE clause is that of `clauses`.
        var clauses := BuildSpec(fs).value.0;
        r := Success(Execute(listings, blacklist, clauses, params));
    }
  }

  // ---------------------------------------------------------------------
  // Properties
  // ---------------------------------------------------------------------

  /** The filtered query and the blacklist lookup agree: a row is excluded
      exactly when its address is one `is_address_blacklisted` reports. */
  lemma BlacklistedIsListed(store: ListingStore, r: Row)
    ensures Blacklisted(r, store.blacklist) <==>
      ValueOf(r, "address").SqlText? && store.IsAddressBlacklisted(ValueOf(r, "address").s)
  {
  }

  /** No row the filtered query returns has an address
      `is_address_blacklisted` reports, whatever the filters. */
  lemma FilteredExcludesBlacklist(store: ListingStore, fs: seq<Filter>, x: Row)
    requires FilteredRows(store.listings, store.blacklist, fs).Success?
    requires x in FilteredRows(store.listings, store.blacklist, fs).value
    requires ValueOf(x, "address").SqlText?
    ensures !store.IsAddressBlacklisted(ValueOf(x, "address").s)
  {
    BlacklistedIsListed(store, x);
  }

  /** `get_favorites` returns exactly the favourite rows, each as often as
      stored, newest first, blacklisted or not. */
  lemma FavoritesExactly(rows: seq<Row>)
    ensures var fav := SortBy(Select(rows, IsFavorite), NewerFirst);
      && SortedBy(fav, NewerFirst)
      && forall x :: multiset(fav)[x] == if IsFavorite(x) then multiset(rows)[x] else 0
  {
    NewerFirstIsPreorder();
    SortBySorts(Select(rows, IsFavorite), NewerFirst);
    SelectIsSubsequence(rows, IsFavorite);
  }

  lemma NewerFirstIsPreorder()
    ensures TotalPreorder(NewerFirst)
  {
    forall a: Row, b: Row ensures NewerFirst(a, b) || NewerFirst(b, a) {
      DescBeforeTotal(ValueOf(a, "last_updated"), ValueOf(b, "last_updated"));
    }
    forall a: Row, b: Row, c: Row | NewerFirst(a, b) && NewerFirst(b, c) ensures NewerFirst(a, c) {
      DescBeforeTransitive(ValueOf(a, "last_updated"), ValueOf(b, "last_updated"), ValueOf(c, "last_updated"));
    }
  }

  /** Marking a listing as a favourite puts it among the favourites. */
  lemma ToggleOnMakesFavorite(rows: seq<Row>, id: int, k: int)
    requires 0 <= k < |rows| && HasId(rows[k], id)
    ensures IsFavorite(SetFavorite(rows, id, true)[k])
    ensures SetFavorite(rows, id, true)[k] in SortBy(Select(SetFavorite(rows, id, true), IsFavorite), NewerFirst)
  {
    var after := SetFavorite(rows, id, true);
    FavoritesExactly(after);
    assert after[k] in multiset(after);
    assert after[k] in multiset(SortBy(Select(after, IsFavorite), NewerFirst));
  }

  // ---------------------------------------------------------------------
  // Helpers
  // ---------------------------------------------------------------------

  lemma AppendKeepsKeysUnique(blacklist: seq<BlacklistEntry>, e: BlacklistEntry)
    requires KeysUnique(blacklist)
    requires forall k :: 0 <= k < |blacklist| ==> !SameAddress(blacklist[k].address, e.address)
    ensures KeysUnique(blacklist + [e])
  {
    var b := blacklist + [e];
    forall i, j | 0 <= i < j < |b| ensures !SameAddress(b[i].address, b[j].address) {
      if j == |blacklist| {
        assert b[i] == blacklist[i];
      } else {
        assert b[i] == blacklist[i] && b[j] == blacklist[j];
      }
    }
  }

  /** A selection is shorter exactly when it drops something. */
  lemma {:induction false} SelectShorter<T>(s: seq<T>, keep: T -> bool)
    ensures |Select(s, keep)| < |s| <==> exists k :: 0 <= k < |s| && !keep(s[k])
  {
    if s != [] {
      SelectShorter(s[1..], keep);
      if exists k :: 0 <= k < |s| - 1 && !keep(s[1..][k]) {
        var k :| 0 <= k < |s| - 1 && !keep(s[1..][k]);
        assert s[k + 1] == s[1..][k];
      }
      if exists k :: 0 <= k < |s| && !keep(s[k]) {
        var k :| 0 <= k < |s| && !keep(s[k]);
        if k > 0 {
          assert s[1..][k - 1] == s[k];
        }
      }
    }
  }

  /** With unique keys at most one entry has the key of `address`, so the
      delete removes at most one. */
  lemma {:induction false} SelectDropsOneKey(blacklist: seq<BlacklistEntry>, address: string)
    requires KeysUnique(blacklist)
    ensures |blacklist| - |Select(blacklist, (e: BlacklistEntry) => !SameAddress(e.address, address))| <= 1
  {
    var keep := (e: BlacklistEntry) => !SameAddress(e.address, address);
    if blacklist != [] {
      var rest := blacklist[1..];
      if keep(blacklist[0]) {
        assert KeysUnique(rest) by {
          forall i, j | 0 <= i < j < |rest| ensures !SameAddress(rest[i].address, rest[j].address) {
            assert rest[i] == blacklist[i + 1] && rest[j] == blacklist[j + 1];
          }
        }
        SelectDropsOneKey(rest, address);
      } else {
        forall x | x in rest ensures keep(x) {
          var m :| 0 <= m < |rest| && rest[m] == x;
          assert blacklist[m + 1] == x;
        }
        SelectAll(rest, keep);
      }
    }
  }

  lemma {:induction false} SelectKeepsKeysUnique(blacklist: seq<BlacklistEntry>, keep: BlacklistEntry -> bool)
    requires KeysUnique(blacklist)
    ensures KeysUnique(Select(blacklist, keep))
  {
    if blacklist != [] {
      var rest := blacklist[1..];
      assert KeysUnique(rest) by {
        forall i, j | 0 <= i < j < |rest| ensures !SameAddress(rest[i].address, rest[j].address) {
          assert rest[i] == blacklist[i + 1] && rest[j] == blacklist[j + 1];
        }
      }
      SelectKeepsKeysUnique(rest, keep);
      if keep(blacklist[0]) {
        var tail := Select(rest, keep);
        var b := [blacklist[0]] + tail;
        forall i, j | 0 <= i < j < |b| ensures !SameAddress(b[i].address, b[j].address) {
          if i == 0 {
            assert b[j] in rest;
            var m :| 0 <= m < |rest| && rest[m] == b[j];
            assert blacklist[m + 1] == b[j];
          } else {
            assert b[i] == tail[i - 1] && b[j] == tail[j - 1];
          }
        }
      }
    }
  }
}
