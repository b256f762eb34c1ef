/**
 * The SQL text builders of the active-record base: SELECT, INSERT and DELETE
 * statements assembled from a table name, column names and where-keys.
 */
module ActiveRecordQuery {

  /** `String.join(separator, items)`. */
  function Join(separator: string, items: seq<string>): string
    decreases |items|
  {
    if |items| == 0 then ""
    else if |items| == 1 then items[0]
    else Join(separator, items[..|items| - 1]) + separator + items[|items| - 1]
  }

  /** The conditions of the where-keys in insertion order: `key = ?` each, with nothing between them. */
  function KeyConditions(keys: seq<string>): string
    decreases |keys|
  {
    if keys == [] then "" else KeyConditions(keys[..|keys| - 1]) + keys[|keys| - 1] + " = ?"
  }

  /** The WHERE clause of a key list: empty for no keys. */
  function WhereClause(keys: seq<string>): string {
    if keys == [] then "" else " WHERE " + KeyConditions(keys)
  }

  /** The `?` placeholders of an INSERT with `n` columns, separated by commas. */
  function Placeholders(n: nat): string {
    if n == 0 then "" else if n == 1 then "?" else Placeholders(n - 1) + ",?"
  }

  function SelectText(table: string, columns: seq<string>, keys: seq<string>): string {
    "SELECT " + (if columns != [] then Join(",", columns) else "*") + " FROM " + table + WhereClause(keys)
  }

  function InsertText(table: string, columns: seq<string>): string {
    "INSERT INTO " + table + " (" + Join(",", columns) + ") VALUES (" + Placeholders(|columns|) + ")"
  }

  function DeleteText(table: string, keys: seq<string>): string {
    "DELETE FROM " + table + WhereClause(keys)
  }

  /** How many times `c` occurs in `s`. */
  function Occurrences(c: char, s: string): nat {
    if s == [] then 0 else Occurrences(c, s[..|s| - 1]) + (if s[|s| - 1] == c then 1 else 0)
  }

  /** `constructWhereFromKeys`: " WHERE " followed by each key's condition. */
  method ConstructWhereFromKeys(whereKeys: seq<string>) returns (whereClause: string)
    ensures whereClause == " WHERE " + KeyConditions(whereKeys)
  {
    whereClause := " WHERE ";
    for i := 0 to |whereKeys|
      invariant whereClause == " WHERE " + KeyConditions(whereKeys[..i])
    {
      assert whereKeys[..i + 1][..i] == whereKeys[..i];
      whereClause := whereClause + whereKeys[i] + " = " + "?";
    }
    assert whereKeys[..|whereKeys|] == whereKeys;
  }

  /** `constructWhere`: no clause at all for no keys. */
  method ConstructWhere(whereKeys: seq<string>) returns (whereClause: string)
    ensures whereClause == WhereClause(whereKeys)
    ensures whereClause == "" <==> whereKeys == []
  {
    if whereKeys == [] {
      return "";
    }
    whereClause := ConstructWhereFromKeys(whereKeys);
  }

  class SelectionQuery {
    const table: string
    var columns: seq<string>
    var whereKeys: seq<string>

    /** No operation adds a column, so the column list stays empty. */
    ghost predicate Valid()
      reads this
    {
      columns == []
    }

    constructor (table: string)
      ensures Valid()
      ensures this.table == table && whereKeys == []
    {
      this.table := table;
      columns := [];
      whereKeys := [];
    }

    method ToString() returns (query: string)
      ensures query == SelectText(table, columns, whereKeys)
      ensures Valid() ==> query == "SELECT * FROM " + table + WhereClause(whereKeys)
    {
      query := "SELECT " + (if columns != [] then Join(",", columns) else "*") + " FROM " + table;
      var whereClause := ConstructWhere(whereKeys);
      query := query + whereClause;
    }

    method WithKey(column: string) returns (self: SelectionQuery)
      requires Valid()
      modifies this
      ensures Valid()
      ensures self == this
      ensures whereKeys == old(whereKeys) + [column]
    {
      whereKeys := whereKeys + [column];
      return this;
    }
  }

  class InsertionQuery {
    const table: string
    var columns: seq<string>

    constructor (table: string)
      ensures this.table == table && columns == []
    {
      this.table := table;
      columns := [];
    }

    method ToString() returns (query: string)
      ensures query == InsertText(table, columns)
    {
      query := "INSERT INTO " + table + " (" + Join(",", columns) + ") VALUES (";
      ghost var head := query;
      var n := |columns|;
      for i := 0 to n
        invariant query == head + Placeholders(i) + (if 0 < i < n then "," else "")
      {
        query := query + "?";
        if i < n - 1 {
          query := query + ",";
        }
      }
      query := query + ")";
    }

    method Column(column: string) returns (self: InsertionQuery)
      modifies this
      ensures self == this
      ensures columns == old(columns) + [column]
    {
      columns := columns + [column];
      return this;
    }
  }

  class DeletionQuery {
    const table: string
    var whereKeys: seq<string>

    constructor (table: string)
      ensures this.table == table && whereKeys == []
    {
      this.table := table;
      whereKeys := [];
    }

    method WithKey(column: string) returns (self: DeletionQuery)
      modifies this
      ensures self == this
      ensures whereKeys == old(whereKeys) + [column]
    {
      whereKeys := whereKeys + [column];
      return this;
    }

    method ToString() returns (query: string)
      ensures query == DeleteText(table, whereKeys)
    {
      var whereClause := ConstructWhere(whereKeys);
      query := "DELETE FROM " + table + whereClause;
    }
  }

  /** `Query.selectFrom`: a fresh SELECT builder with no keys. */
  method SelectFrom(tableName: string) returns (query: SelectionQuery)
    ensures fresh(query) && query.Valid()
    ensures query.table == tableName && query.whereKeys == []
  {
    query := new SelectionQuery(tableName);
  }

  /** `Query.insertInto`: a fresh INSERT builder with no columns. */
  method InsertInto(tableName: string) returns (query: InsertionQuery)
    ensures fresh(query)
    ensures query.table == tableName && query.columns == []
  {
    query := new InsertionQuery(tableName);
  }

  /** `Query.deleteFrom`: a fresh DELETE builder with no keys. */
  method DeleteFrom(tableName: string) returns (query: DeletionQuery)
    ensures fresh(query)
    ensures query.table == tableName && query.whereKeys == []
  {
    query := new DeletionQuery(tableName);
  }

  /** A SELECT built from a table alone reads every column of it, with no WHERE clause. */
  lemma SelectWithoutKeys(table: string)
    ensures SelectText(table, [], []) == "SELECT * FROM " + table
  {
  }

  /**
   * The WHERE clause lists each key's condition in insertion order with no
   * separator: the first key's condition comes first, then the rest's.
   */
  lemma {:induction false} KeyConditionsInOrder(key: string, rest: seq<string>)
    ensures KeyConditions([key] + rest) == key + " = ?" + KeyConditions(rest)
    decreases |rest|
  {
    if rest != [] {
      var keys := [key] + rest;
      assert keys[..|keys| - 1] == [key] + rest[..|rest| - 1];
      KeyConditionsInOrder(key, rest[..|rest| - 1]);
    }
  }

  /** There is a WHERE clause exactly when there are keys, and it always starts with " WHERE ". */
  lemma WhereClauseShape(keys: seq<string>)
    ensures WhereClause(keys) == "" <==> keys == []
    ensures keys != [] ==> WhereClause(keys)[..7] == " WHERE "
  {
  }

  /**
   * Without a separator, different key lists can give the same WHERE clause:
   * keys `a` and `b` read like the single key `a = ?b`.
   */
  lemma WhereClauseAmbiguous()
    ensures WhereClause(["a", "b"]) == WhereClause(["a = ?b"])
  {
  }

  lemma {:induction false} OccurrencesAppend(c: char, s: string, t: string)
    ensures Occurrences(c, s + t) == Occurrences(c, s) + Occurrences(c, t)
    decreases |t|
  {
    if t == [] {
      assert s + t == s;
    } else {
      assert (s + t)[..|s + t| - 1] == s + t[..|t| - 1];
      assert (s + t)[|s + t| - 1] == t[|t| - 1];
      OccurrencesAppend(c, s, t[..|t| - 1]);
    }
  }

  /** `n` columns give `n` placeholders separated by `n - 1` commas, and nothing else. */
  lemma {:induction false} PlaceholderCount(n: nat)
    requires n > 0
    ensures Occurrences('?', Placeholders(n)) == n
    ensures Occurrences(',', Placeholders(n)) == n - 1
    ensures |Placeholders(n)| == 2 * n - 1
  {
    if n > 1 {
      PlaceholderCount(n - 1);
      OccurrencesAppend('?', Placeholders(n - 1), ",?");
      OccurrencesAppend(',', Placeholders(n - 1), ",?");
    }
  }

  /** An INSERT with no columns has empty column and value lists. */
  lemma InsertWithoutColumns(table: string)
    ensures InsertText(table, []) == "INSERT INTO " + table + " () VALUES ()"
  {
  }

  /** SELECT and DELETE on the same keys end in the same WHERE clause. */
  lemma SelectAndDeleteShareWhere(table: string, keys: seq<string>)
    ensures SelectText(table, [], keys) == "SELECT * FROM " + table + WhereClause(keys)
    ensures DeleteText(table, keys) == "DELETE FROM " + table + WhereClause(keys)
  {
  }
}
