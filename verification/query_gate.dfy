/**
 * The query side of the local MCP server: the read-only gate in front of
 * every SQL query, the sensor listing built from a result set, and the cache
 * of query results that a client may clear.
 */
module QueryGate {

  import opened Common

  // ---------------------------------------------------------------------------
  // is_safe_query
  // ---------------------------------------------------------------------------

  /** `str.upper` on one character: the ASCII letters a-z, every other character unchanged. */
  function UpperChar(c: char): char
  {
    if 'a' <= c <= 'z' then (c as int - 'a' as int + 'A' as int) as char else c
  }

  /** `sql.upper()`, character by character. */
  function Upper(s: string): (u: string)
    ensures |u| == |s|
    ensures forall i :: 0 <= i < |s| ==> u[i] == UpperChar(s[i])
    ensures forall i :: 0 <= i < |u| ==> !('a' <= u[i] <= 'z')
    decreases |s|
  {
    if |s| == 0 then "" else [UpperChar(s[0])] + Upper(s[1..])
  }

  /** Python's `needle in hay` on strings, scanning the start positions from the left. */
  function Occurs(needle: string, hay: string): bool
    decreases |hay|
  {
    if |hay| < |needle| then false
    else hay[..|needle|] == needle || Occurs(needle, hay[1..])
  }

  /** `needle` sits in `hay` at position `i`. */
  ghost predicate At(needle: string, hay: string, i: int) {
    0 <= i && i + |needle| <= |hay| && hay[i..i + |needle|] == needle
  }

  /** The scan finds the needle exactly when it sits at some position. */
  lemma {:induction false} OccursIff(needle: string, hay: string)
    ensures Occurs(needle, hay) <==> exists i :: At(needle, hay, i)
    decreases |hay|
  {
    if |hay| >= |needle| {
      if hay[..|needle|] == needle {
        assert At(needle, hay, 0);
      } else {
        OccursIff(needle, hay[1..]);
        if Occurs(needle, hay[1..]) {
          var i :| At(needle, hay[1..], i);
          assert hay[1..][i..i + |needle|] == hay[i + 1..i + 1 + |needle|];
          assert At(needle, hay, i + 1);
        }
        if exists i :: At(needle, hay, i) {
          var i :| At(needle, hay, i);
          assert i != 0 by {
            assert hay[..|needle|] == hay[0..|needle|];
          }
          assert hay[1..][i - 1..i - 1 + |needle|] == hay[i..i + |needle|];
          assert At(needle, hay[1..], i - 1);
        }
      }
    }
  }

  /** The nine keywords that may not appear anywhere in an accepted query. */
  const Forbidden: seq<string> := ["INSERT", "UPDATE", "DELETE", "DROP", "ALTER", "CREATE", "TRUNCATE", "REPLACE", "MERGE"]

  /**
   * The gate, over what `sqlparse` reports: the type of each parsed statement
   * in order (`get_type()`, "SELECT" for a query). A query passes exactly when
   * something was parsed, the first statement is a SELECT and none of the
   * forbidden words occurs in the upper-cased text, inside identifiers too.
   */
  method IsSafeQuery(sql: string, statementTypes: seq<string>) returns (safe: bool)
    ensures safe <==>
      && |statementTypes| > 0
      && statementTypes[0] == "SELECT"
      && forall k :: 0 <= k < |Forbidden| ==> !Occurs(Forbidden[k], Upper(sql))
  {
    if |statementTypes| == 0 {
      return false;
    }
    if statementTypes[0] != "SELECT" {
      return false;
    }
    var sqlUpper := Upper(sql);
    var k := 0;
    while k < |Forbidden|
      invariant 0 <= k <= |Forbidden|
      invariant forall m :: 0 <= m < k ==> !Occurs(Forbidden[m], sqlUpper)
    {
      if Occurs(Forbidden[k], sqlUpper) {
        return false;
      }
      k := k + 1;
    }
    return true;
  }

  /**
   * The substring test is blind to word boundaries: any query that names a
   * `created_at` column is refused, because "CREATE" occurs in its
   * upper-cased text.
   */
  lemma CreatedAtColumnIsRefused(sql: string, i: nat)
    requires i + 10 <= |sql| && sql[i..i + 10] == "created_at"
    ensures Occurs("CREATE", Upper(sql))
  {
    var u := Upper(sql);
    forall k | 0 <= k < 6 ensures u[i + k] == "CREATE"[k] {
      assert sql[i + k] == sql[i..i + 10][k];
    }
    assert u[i..i + 6] == "CREATE";
    assert At("CREATE", u, i);
    OccursIff("CREATE", u);
  }

  // ---------------------------------------------------------------------------
  // create_sensor_dict
  // ---------------------------------------------------------------------------

  /**
   * `{description[i]: row[i] for i in range(1, n)}` for the first `n` columns:
   * column 0 (the id) is left out and a repeated column name keeps the later column.
   */
  function RowInfo<V>(row: seq<V>, description: seq<string>, n: nat): map<string, V>
    requires n <= |description| && n <= |row|
  {
    if n <= 1 then map[] else RowInfo(row, description, n - 1)[description[n - 1] := row[n - 1]]
  }

  /** A row can be read: it has an id, and a value for every described column. */
  predicate Readable<V>(row: seq<V>, description: seq<string>) {
    |row| >= 1 && |row| >= |description|
  }

  /**
   * `create_sensor_dict(results, description)`: one entry per row keyed by
   * its first column, a later row overwriting an earlier one with the same
   * id. A row too short for `row[0]` or for a described column raises
   * IndexError, here None.
   */
  function SensorDict<V(==)>(results: seq<seq<V>>, description: seq<string>): (r: Option<map<V, map<string, V>>>)
    ensures r.Some? <==> forall j :: 0 <= j < |results| ==> Readable(results[j], description)
    ensures r.Some? ==> r.value.Keys == set j | 0 <= j < |results| :: results[j][0]
    decreases |results|
  {
    if |results| == 0 then Some(map[])
    else
      var row := results[|results| - 1];
      match SensorDict(results[..|results| - 1], description)
      case None => None
      case Some(d) =>
        if Readable(row, description) then Some(d[row[0] := RowInfo(row, description, |description|)])
        else None
  }

  /** The entry of a row names exactly the columns after the first, each with the value of its last column of that name. */
  lemma {:induction false} RowInfoSpec<V>(row: seq<V>, description: seq<string>, n: nat)
    requires n <= |description| && n <= |row|
    ensures RowInfo(row, description, n).Keys == set i | 1 <= i < n :: description[i]
    ensures forall i :: 1 <= i < n && (forall i2 :: i < i2 < n ==> description[i2] != description[i]) ==>
      RowInfo(row, description, n)[description[i]] == row[i]
  {
    if n > 1 {
      RowInfoSpec(row, description, n - 1);
      var info := RowInfo(row, description, n - 1);
      assert RowInfo(row, description, n).Keys == info.Keys + {description[n - 1]};
      assert (set i | 1 <= i < n :: description[i]) == (set i | 1 <= i < n - 1 :: description[i]) + {description[n - 1]};
    }
  }

  /**
   * The id column itself is not copied into the entry, unless a later column
   * carries the same name.
   */
  lemma IdColumnExcluded<V>(row: seq<V>, description: seq<string>)
    requires Readable(row, description) && |description| >= 1
    requires forall i :: 1 <= i < |description| ==> description[i] != description[0]
    ensures description[0] !in RowInfo(row, description, |description|)
  {
    RowInfoSpec(row, description, |description|);
  }

  /** A readable result set is the readable result set without its last row, updated with that row. */
  lemma SensorDictLast<V>(results: seq<seq<V>>, description: seq<string>)
    requires |results| > 0 && SensorDict(results, description).Some?
    ensures var last := results[|results| - 1];
      && SensorDict(results[..|results| - 1], description).Some?
      && SensorDict(results, description).value ==
         SensorDict(results[..|results| - 1], description).value[last[0] := RowInfo(last, description, |description|)]
  {
  }

  /** The entry under an id is built from the LAST row carrying that id. */
  lemma {:induction false} SensorDictLastRowWins<V>(results: seq<seq<V>>, description: seq<string>, j: nat)
    requires j < |results|
    requires SensorDict(results, description).Some?
    requires forall j2 :: j < j2 < |results| ==> results[j2][0] != results[j][0]
    ensures SensorDict(results, description).value[results[j][0]] == RowInfo(results[j], description, |description|)
    decreases |results|
  {
    var n := |results|;
    SensorDictLast(results, description);
    if j < n - 1 {
      var prefix := results[..n - 1];
      assert prefix[j] == results[j];
      assert results[n - 1][0] != results[j][0];
      assert forall j2 :: j < j2 < |prefix| ==> prefix[j2][0] != prefix[j][0];
      SensorDictLastRowWins(prefix, description, j);
    }
  }

  /** No rows, no sensors. */
  lemma EmptyResultsEmptyDict<V>(description: seq<string>)
    ensures SensorDict<V>([], description) == Some(map[])
  {
  }

  // ---------------------------------------------------------------------------
  // clear_query_cache
  // ---------------------------------------------------------------------------

  /** What `clear_query_cache` answers. */
  datatype ClearReport = Cleared(id: string) | NotFound(id: string) | ClearedAll {

    /** The returned text. */
    function Message(): string
    {
      match this
      case Cleared(id) => "Cleared query " + id
      case NotFound(id) => "Query " + id + " not found"
      case ClearedAll => "Cleared all cached queries"
    }
  }

  /**
   * The answer text tells the three outcomes apart and names the id it was
   * given: equal answers come from the same report.
   */
  lemma MessageIdentifiesReport(r1: ClearReport, r2: ClearReport)
    ensures r1 != r2 ==> r1.Message() != r2.Message()
  {
    var m1, m2 := r1.Message(), r2.Message();
    if r1 != r2 {
      if r1.Cleared? && r2.Cleared? {
        assert m1[14..] == r1.id && m2[14..] == r2.id;
      } else if r1.NotFound? && r2.NotFound? {
        if |m1| == |m2| {
          assert m1[6..|m1| - 10] == r1.id && m2[6..|m2| - 10] == r2.id;
        }
      } else if (r1.Cleared? && r2.ClearedAll?) || (r1.ClearedAll? && r2.Cleared?) {
        assert m1[8] != m2[8];
      } else {
        assert m1[0] != m2[0];
      }
    }
  }

  /** `query_cache`: query results by query id, mutated in place. */
  class QueryCache<R> {
    var entries: map<string, R>

    constructor ()
      ensures entries == map[]
    {
      entries := map[];
    }

    /** `query_cache[query_id] = df`, the insertion `execute_sql_query` makes. */
    method Put(queryId: string, result: R)
      modifies this
      ensures entries == old(entries)[queryId := result]
    {
      entries := entries[queryId := result];
    }

    /**
     * `clear_query_cache(query_id)`: a truthy id removes that entry alone,
     * or reports it missing and changes nothing; None or "" empties the cache.
     */
    method Clear(queryId: Option<string>) returns (report: ClearReport)
      modifies this
      ensures (queryId.None? || queryId.value == "") ==> entries == map[] && report == ClearedAll
      ensures queryId.Some? && queryId.value != "" && queryId.value in old(entries) ==>
        && report == Cleared(queryId.value)
        && entries.Keys == old(entries).Keys - {queryId.value}
        && forall k :: k in entries ==> entries[k] == old(entries)[k]
      ensures queryId.Some? && queryId.value != "" && queryId.value !in old(entries) ==>
        report == NotFound(queryId.value) && entries == old(entries)
    {
      if queryId.Some? && queryId.value != "" {
        if queryId.value in entries {
          entries := entries - {queryId.value};
          return Cleared(queryId.value);
        }
        return NotFound(queryId.value);
      }
      entries := map[];
      return ClearedAll;
    }
  }
}
