/**
 * The record types of the application and the few pieces of logic that
 * live on them: a role's comma-separated permission list, the `can` check,
 * the password guard and the key-value settings store.
 */
module Models {
  import opened Wrappers
  import opened Text

  /** Life-cycle status of one location's business day. */
  datatype Status = NotStarted | Open | PendingReport | Closed

  /**
   * One location's business day. Money is in whole NT$; the nullable
   * columns are `Option`s. `cashBreakdown` is the denomination count as
   * (denomination, count) pairs.
   */
  datatype BusinessDay = BusinessDay(
    status: Status,
    openingCash: int,
    totalSales: int,
    totalItems: int,
    totalTransactions: int,
    closingCash: Option<int>,
    expectedCash: Option<int>,
    cashDiff: Option<int>,
    cashBreakdown: Option<seq<(int, int)>>,
    notes: Option<string>)

  /** A business day as the model's column defaults create it. */
  function NewBusinessDay(openingCash: int, notes: Option<string>): (d: BusinessDay)
    ensures d.status == NotStarted && d.openingCash == openingCash && d.notes == notes
    ensures d.totalSales == 0 && d.totalItems == 0 && d.totalTransactions == 0
    ensures d.closingCash == None && d.expectedCash == None && d.cashDiff == None && d.cashBreakdown == None
  {
    BusinessDay(NotStarted, openingCash, 0, 0, 0, None, None, None, None, notes)
  }

  /**
   * `Role.get_permissions`: the stored comma-separated string split on ',';
   * no permissions when the column is NULL or empty.
   */
  function GetPermissions(permissions: Option<string>): (r: seq<string>)
    ensures permissions == None || permissions == Some([]) ==> r == []
    ensures permissions.Some? && permissions.value != [] ==>
              |r| >= 1 && Join(r, [',']) == permissions.value
    ensures forall i :: 0 <= i < |r| ==> ',' !in r[i]
  {
    match permissions
    case None => []
    case Some(p) =>
      if p == [] then []
      else
        JoinSplit(p, ',');
        Split(p, ',')
  }

  /**
   * `User.can`: scans the user's roles (each given by its permissions
   * column) and answers as soon as one lists `permission`.
   */
  method Can(roles: seq<Option<string>>, permission: string) returns (allowed: bool)
    ensures allowed <==> exists i :: 0 <= i < |roles| && permission in GetPermissions(roles[i])
  {
    var i := 0;
    while i < |roles|
      invariant 0 <= i <= |roles|
      invariant forall j :: 0 <= j < i ==> permission !in GetPermissions(roles[j])
    {
      if permission in GetPermissions(roles[i]) {
        return true;
      }
      i := i + 1;
    }
    return false;
  }

  /**
   * `User.check_password`: a user without a password hash (NULL or empty)
   * never passes; otherwise the hash verifier decides. Hashing itself is a
   * parameter, `verify(hash, password)`.
   */
  function CheckPassword(passwordHash: Option<string>, password: string, verify: (string, string) -> bool): (ok: bool)
    ensures passwordHash == None || passwordHash == Some([]) ==> !ok
    ensures ok ==> passwordHash.Some? && verify(passwordHash.value, password)
    ensures passwordHash.Some? && passwordHash.value != [] ==> ok == verify(passwordHash.value, password)
  {
    match passwordHash
    case None => false
    case Some(h) => if h == [] then false else verify(h, password)
  }

  /** One row of the `system_setting` table; `value` is nullable. */
  datatype Setting = Setting(key: string, value: Option<string>)

  /** Position of the row whose key is `key`, if there is one. */
  function IndexOfKey(rows: seq<Setting>, key: string): (r: Option<nat>)
    ensures r.Some? ==> r.value < |rows| && rows[r.value].key == key
    ensures r.None? ==> forall i :: 0 <= i < |rows| ==> rows[i].key != key
  {
    if rows == [] then None
    else if rows[|rows| - 1].key == key then Some(|rows| - 1)
    else IndexOfKey(rows[..|rows| - 1], key)
  }

  /** The value a table of rows holds for `key`, or `default` when no row has that key. */
  function Lookup(rows: seq<Setting>, key: string, default: Option<string>): (r: Option<string>)
    ensures (forall i :: 0 <= i < |rows| ==> rows[i].key != key) ==> r == default
    ensures (exists i :: 0 <= i < |rows| && rows[i].key == key) ==> exists i :: 0 <= i < |rows| && rows[i].key == key && r == rows[i].value
  {
    match IndexOfKey(rows, key)
    case Some(i) => rows[i].value
    case None => default
  }

  /** The primary key of `system_setting`: no two rows share a key. */
  ghost predicate UniqueKeys(rows: seq<Setting>) {
    forall i, j :: 0 <= i < j < |rows| ==> rows[i].key != rows[j].key
  }

  /**
   * The upsert `SystemSetting.set` performs: the row of `key` gets the new
   * value in place, or a row is added when there is none. Afterwards
   * `key` reads back `value`, every other key reads what it read before,
   * and there is still at most one row per key.
   */
  function Upsert(rows: seq<Setting>, key: string, value: Option<string>): (r: seq<Setting>)
    requires UniqueKeys(rows)
    ensures UniqueKeys(r)
    ensures forall d :: Lookup(r, key, d) == value
    ensures forall k, d :: k != key ==> Lookup(r, k, d) == Lookup(rows, k, d)
    ensures |r| == |rows| + (if IndexOfKey(rows, key).Some? then 0 else 1)
  {
    match IndexOfKey(rows, key)
    case Some(i) =>
      SettingUpdateLookup(rows, i, key, value);
      rows[i := Setting(key, value)]
    case None =>
      SettingAppendLookup(rows, key, value);
      rows + [Setting(key, value)]
  }

  /** The `system_setting` table, updated in place by `set`. */
  class SettingsStore {
    var rows: seq<Setting>

    ghost predicate Valid()
      reads this
    {
      UniqueKeys(rows)
    }

    constructor ()
      ensures Valid() && rows == []
    {
      rows := [];
    }

    /** `SystemSetting.get`: the stored value (possibly NULL) of `key`, or `default` when there is no row. */
    function Get(key: string, default: Option<string>): Option<string>
      reads this
    {
      Lookup(rows, key, default)
    }

    /** `SystemSetting.set`. */
    method Set(key: string, value: Option<string>)
      requires Valid()
      modifies this
      ensures Valid()
      ensures rows == Upsert(old(rows), key, value)
      ensures forall d :: Get(key, d) == value
    {
      rows := Upsert(rows, key, value);
    }
  }

  /** After the row at `i` is rewritten with the same key, lookups see the new value and nothing else moves. */
  lemma {:induction false} SettingUpdateLookup(rows: seq<Setting>, i: nat, key: string, value: Option<string>)
    requires i < |rows| && rows[i].key == key
    requires forall a, b :: 0 <= a < b < |rows| ==> rows[a].key != rows[b].key
    ensures var rows' := rows[i := Setting(key, value)];
      IndexOfKey(rows', key) == Some(i)
      && forall k :: k != key ==> IndexOfKey(rows', k) == IndexOfKey(rows, k)
  {
    var rows' := rows[i := Setting(key, value)];
    forall k | k != key
      ensures IndexOfKey(rows', k) == IndexOfKey(rows, k)
    {
      KeyLookupIgnoresOthers(rows, rows', k);
    }
    UniqueKeyIndex(rows', i);
  }

  /** Appending a row with a new key makes lookups of that key find it and leaves the others alone. */
  lemma SettingAppendLookup(rows: seq<Setting>, key: string, value: Option<string>)
    requires forall i :: 0 <= i < |rows| ==> rows[i].key != key
    ensures var rows' := rows + [Setting(key, value)];
      IndexOfKey(rows', key) == Some(|rows|)
      && forall k :: k != key ==> IndexOfKey(rows', k) == IndexOfKey(rows, k)
  {
    var rows' := rows + [Setting(key, value)];
    assert rows'[..|rows'| - 1] == rows;
  }

  /** Two tables that agree on which positions hold key `k` answer the same lookup of `k`. */
  lemma {:induction false} KeyLookupIgnoresOthers(rows: seq<Setting>, rows': seq<Setting>, k: string)
    requires |rows| == |rows'|
    requires forall j :: 0 <= j < |rows| ==> (rows[j].key == k <==> rows'[j].key == k)
    ensures IndexOfKey(rows', k) == IndexOfKey(rows, k)
  {
    if rows != [] {
      KeyLookupIgnoresOthers(rows[..|rows| - 1], rows'[..|rows'| - 1], k);
    }
  }

  /** With unique keys, the lookup of the key at position `i` finds position `i`. */
  lemma UniqueKeyIndex(rows: seq<Setting>, i: nat)
    requires i < |rows|
    requires forall a, b :: 0 <= a < b < |rows| ==> rows[a].key != rows[b].key
    ensures IndexOfKey(rows, rows[i].key) == Some(i)
  {
  }
}
