/** The calls of the repository's example script and the statements they render, with
    the table, the columns and the values as parameters. */
module Examples {
  import opened PhpArray
  import opened QueryBuilder

  /** A column name as the script writes them: a lower-case letter first, no dot. */
  predicate PlainName(k: string) {
    |k| > 0 && 'a' <= k[0] <= 'z' && '.' !in k
  }

  /** A page of rows in a given order: no WHERE clause, ORDER BY before LIMIT. */
  lemma OrderedPage(table: string, order: string, limit: string)
    ensures SelectSql(table, ["*"], SelectParams(None, None, Some(order), None, Some(limit), false, false, None))
         == "SELECT * FROM " + table + " ORDER BY " + order + " LIMIT " + limit
  {
    var p := SelectParams(None, None, Some(order), None, Some(limit), false, false, None);
    calc {
      SelectSql(table, ["*"], p);
      "SELECT " + Join(",", ["*"]) + " FROM " + table + "" + "" + (" ORDER BY " + order) + (" LIMIT " + limit);
      { assert Join(",", ["*"]) == "*"; }
      "SELECT " + "*" + " FROM " + table + (" ORDER BY " + order) + (" LIMIT " + limit);
      { assert "SELECT " + "*" + " FROM " == "SELECT * FROM "; }
      "SELECT * FROM " + table + " ORDER BY " + order + " LIMIT " + limit;
    }
  }

  /** The where array of a lookup by one column. */
  lemma OneNamedEntry(k: string, v: string)
    requires PlainName(k)
    ensures NamedEntries([(StrKey(k), v)]) == [(k, v)]
    ensures RawFragments([(StrKey(k), v)]) == []
  {
    IdentifierIsNotNumeric(k);
    assert [(StrKey(k), v)][1..] == [];
  }

  /** The WHERE clause of a lookup by one column. */
  lemma OneKeyWhere(k: string, v: string)
    requires PlainName(k)
    ensures WhereClause([(StrKey(k), v)]) == " WHERE " + k + " = :" + k
  {
    var w := [(StrKey(k), v)];
    var c := k + " = :" + k;
    OneNamedEntry(k, v);
    StripDotsNoDot(k);
    assert NamedConditions(NamedEntries(w)) == [c];
    assert Group(" AND ", RawFragments(w)) == [];
    assert Group(" AND ", [c]) == [c];
    assert [] + [c] == [c];
    assert WhereClause(w) == " WHERE " + c;
    AppendAssoc(" WHERE " + k, " = :", k);
  }

  /** The values a lookup by one column is executed with. */
  lemma OneKeyBindings(k: string, v: string)
    requires PlainName(k)
    ensures SelectBindings(SelectParams(Some([(StrKey(k), v)]), None, None, None, None, false, true, None)) == Named([(k, v)])
  {
    OneNamedEntry(k, v);
    StripDotsNoDot(k);
    ReKeyKeepsOrder([(k, v)]);
    assert Stripped([(k, v)]) == [(k, v)];
  }

  /** The query text of a lookup by one column. */
  lemma OneKeySql(table: string, columns: string, k: string, v: string)
    requires PlainName(k)
    ensures SelectSql(table, [columns], SelectParams(Some([(StrKey(k), v)]), None, None, None, None, false, true, None))
         == "SELECT " + columns + " FROM " + table + (" WHERE " + k + " = :" + k)
  {
    var w := [(StrKey(k), v)];
    calc {
      SelectSql(table, [columns], SelectParams(Some(w), None, None, None, None, false, true, None));
      "SELECT " + Join(",", [columns]) + " FROM " + table + WhereClause(w) + "" + "" + "";
      { OneKeyWhere(k, v); }
      "SELECT " + columns + " FROM " + table + (" WHERE " + k + " = :" + k);
    }
  }

  /** One row by one column: the condition is named after its column, the value is bound
      under that name, and one associative row is fetched. */
  lemma SingleRowByKey(table: string, columns: string, k: string, v: string)
    requires PlainName(k)
    ensures var p := SelectParams(Some([(StrKey(k), v)]), None, None, None, None, false, true, None);
      && SelectSql(table, [columns], p) == "SELECT " + columns + " FROM " + table + (" WHERE " + k + " = :" + k)
      && SelectBindings(p) == Named([(k, v)])
      && FetchOf(p) == Fetch(Assoc, true)
  {
    OneKeySql(table, columns, k, v);
    OneKeyBindings(k, v);
  }

  /** One value by one column: `single` fetches one row in single-column mode. */
  lemma SingleValueByKey(k: string, v: string)
    ensures FetchOf(SelectParams(Some([(StrKey(k), v)]), None, None, None, None, true, false, None)) == Fetch(Column, true)
  {
  }

  /** Inserting two columns: `(a,b) VALUES (:a,:b)`. */
  lemma InsertTwo(table: string, a: string, av: string, b: string, bv: string)
    ensures InsertSql(table, [(StrKey(a), av), (StrKey(b), bv)])
         == "INSERT INTO " + table + " (" + (a + "," + b) + ") VALUES (:" + (a + ",:" + b) + ")"
  {
    var data := [(StrKey(a), av), (StrKey(b), bv)];
    assert Columns(data) == [a, b];
    assert [a, b][1..] == [b];
    assert Join(",", [a, b]) == a + "," + b;
    assert Join(",:", [a, b]) == a + ",:" + b;
  }

  /** The SET list of three columns. */
  lemma ThreeAssignments(a: string, av: string, b: string, bv: string, c: string, cv: string)
    ensures Join(",", Assignments([(StrKey(a), av), (StrKey(b), bv), (StrKey(c), cv)]))
         == a + " = :" + a + "," + b + " = :" + b + "," + c + " = :" + c
  {
    var s := Assignments([(StrKey(a), av), (StrKey(b), bv), (StrKey(c), cv)]);
    assert s == [a + " = :" + a, b + " = :" + b, c + " = :" + c];
    assert s[1..][1..] == [c + " = :" + c];
    assert Join(",", s[1..]) == (b + " = :" + b) + "," + (c + " = :" + c);
  }

  /** Updating three columns of the row matched on the first one. */
  lemma UpdateThree(table: string, a: string, av: string, b: string, bv: string, c: string, cv: string)
    ensures UpdateSql(table, [(StrKey(a), av), (StrKey(b), bv), (StrKey(c), cv)], Some([a]))
         == "UPDATE " + table + " SET " + (a + " = :" + a + "," + b + " = :" + b + "," + c + " = :" + c)
            + (" WHERE " + (a + " = :" + a))
  {
    var data := [(StrKey(a), av), (StrKey(b), bv), (StrKey(c), cv)];
    calc {
      UpdateSql(table, data, Some([a]));
      { UpdateSetShape(table, data, Some([a])); }
      "UPDATE " + table + " SET " + Join(",", Assignments(data)) + MatchClause(Some([a]));
      { ThreeAssignments(a, av, b, bv, c, cv);
        assert MatchConditions([a]) == [a + " = :" + a]; }
      "UPDATE " + table + " SET " + (a + " = :" + a + "," + b + " = :" + b + "," + c + " = :" + c)
        + (" WHERE " + (a + " = :" + a));
    }
  }

  /** Deleting by one column: the value is quoted into the text. */
  lemma DeleteByKey(table: string, k: string, v: string, quote: string -> string)
    requires PlainName(k)
    ensures DeleteSql(table, [(StrKey(k), v)], quote) == "DELETE FROM " + table + " WHERE " + k + "=" + quote(v)
  {
    var w := [(StrKey(k), v)];
    IdentifierIsNotNumeric(k);
    assert w[1..] == [];
    assert NumericValues(w) == [];
    OneNamedEntry(k, v);
    assert QuotedConditions(NamedEntries(w), quote) == [k + "=" + quote(v)];
  }
}
