/** The clause generators: the text of a clause and the values bound to its placeholders. */
module Generator {
  import opened Basics
  import opened Text

  /** What a program may bind to a placeholder. */
  datatype Value = Number(n: int) | Characters(s: string) | Truth(b: bool) | Null

  datatype Kind = INSERT | VALUES | SELECT | LIMIT | WHERE | ORDERBY | UPDATE | DELETE | COUNT

  /** A kind of clause with the arguments its generator expects. */
  datatype Request =
    | Insert(table: string, fields: seq<string>)
    | Values(rows: seq<seq<Value>>)
    | Select(table: string, fields: seq<string>)
    | Limit(limit: int)
    | Where(desc: string, args: seq<Value>)
    | OrderBy(desc: string)
    | Update(table: string, items: map<string, Value>)
    | Delete(table: string)
    | Count(table: string)
  {
    function Kind(): Kind {
      match this
      case Insert(_, _) => INSERT
      case Values(_) => VALUES
      case Select(_, _) => SELECT
      case Limit(_) => LIMIT
      case Where(_, _) => WHERE
      case OrderBy(_) => ORDERBY
      case Update(_, _) => UPDATE
      case Delete(_) => DELETE
      case Count(_) => COUNT
    }
  }

  datatype Piece = Piece(sql: string, vars: seq<Value>)

  /** How many placeholders a text holds. */
  function Placeholders(s: string): nat {
    if s == [] then 0 else (if s[0] == '?' then 1 else 0) + Placeholders(s[1..])
  }

  lemma {:induction false} PlaceholdersAdd(a: string, b: string)
    ensures Placeholders(a + b) == Placeholders(a) + Placeholders(b)
  {
    if a == [] {
      assert a + b == b;
    } else {
      assert (a + b)[1..] == a[1..] + b;
      PlaceholdersAdd(a[1..], b);
    }
  }

  lemma {:induction false} NoPlaceholder(s: string)
    ensures Placeholders(s) == 0 <==> '?' !in s
  {
    if s != [] {
      NoPlaceholder(s[1..]);
    }
  }

  /** A placeholder behind a text without any. */
  lemma OnePlaceholder(s: string)
    requires '?' !in s
    ensures Placeholders(s + "?") == 1
  {
    PlaceholdersAdd(s, "?");
    NoPlaceholder(s);
  }

  // ---- placeholders of one row ----

  function Marks(n: nat): (m: seq<string>)
    ensures |m| == n
  {
    if n == 0 then [] else Marks(n - 1) + ["?"]
  }

  /** `n` placeholders, separated. */
  function BindVars(n: nat): string {
    Join(Marks(n), ", ")
  }

  method GenBindVars(num: nat) returns (sql: string)
    ensures sql == BindVars(num)
  {
    var vars := [];
    var i := 0;
    while i < num
      invariant 0 <= i <= num && vars == Marks(i)
    {
      vars := vars + ["?"];
      i := i + 1;
    }
    sql := Join(vars, ", ");
  }

  lemma BindVarsGrows(n: nat)
    requires n > 1
    ensures BindVars(n) == BindVars(n - 1) + ", ?"
  {
    JoinOneMore(Marks(n - 1), ", ", "?");
    assert ", " + "?" == ", ?";
  }

  lemma {:induction false} BindVarsSize(n: nat)
    ensures |BindVars(n)| == (if n == 0 then 0 else 3 * n - 2) && Placeholders(BindVars(n)) == n
  {
    if n == 1 {
      assert Marks(1) == ["?"];
    } else if n > 1 {
      BindVarsSize(n - 1);
      BindVarsGrows(n);
      PlaceholdersAdd(BindVars(n - 1), ", ?");
      OnePlaceholder(", ");
      assert ", " + "?" == ", ?";
    }
  }

  /** The c-th placeholder of a row stands at 3 * c and is preceded by c others. */
  lemma {:induction false} BindVarsAt(n: nat, c: nat)
    requires c < n
    ensures 3 * c < |BindVars(n)| && BindVars(n)[3 * c] == '?' && Placeholders(BindVars(n)[..3 * c]) == c
  {
    BindVarsSize(n);
    if n == 1 {
      assert Marks(1) == ["?"];
    } else {
      BindVarsSize(n - 1);
      BindVarsGrows(n);
      var row, shorter := BindVars(n), BindVars(n - 1);
      if c < n - 1 {
        BindVarsAt(n - 1, c);
        assert row[..3 * c] == shorter[..3 * c];
      } else {
        assert row[..3 * c] == shorter + ", ";
        PlaceholdersAdd(shorter, ", ");
        NoPlaceholder(", ");
      }
    }
  }

  // ---- rows of values ----

  /**
   * The generator sizes its placeholders by the first row that is not empty: the number of
   * placeholders written for the last of `rows`.
   */
  function FirstWidth(rows: seq<seq<Value>>): nat {
    if rows == [] then 0
    else
      var w := FirstWidth(rows[..|rows| - 1]);
      if w > 0 then w else |rows[|rows| - 1]|
  }

  function Tuples(rows: seq<seq<Value>>): string {
    if rows == [] then ""
    else
      var before := rows[..|rows| - 1];
      Tuples(before) + (if before == [] then "(" else ", (") + BindVars(FirstWidth(rows)) + ")"
  }

  function Bound(rows: seq<seq<Value>>): seq<Value> {
    if rows == [] then [] else Bound(rows[..|rows| - 1]) + rows[|rows| - 1]
  }

  /** The separator that the generator has written after `i` of `n` rows. */
  function Sep(i: nat, n: nat): string {
    if 0 < i < n then ", " else ""
  }

  /** Width and values one row further on. */
  lemma {:induction false} OneRowMore(rows: seq<seq<Value>>, i: nat)
    requires i < |rows|
    ensures FirstWidth(rows[..i + 1]) == if FirstWidth(rows[..i]) > 0 then FirstWidth(rows[..i]) else |rows[i]|
    ensures Bound(rows[..i + 1]) == Bound(rows[..i]) + rows[i]
  {
    assert rows[..i + 1][..i] == rows[..i];
  }

  /** And the text. */
  lemma {:induction false} TuplesOneMore(rows: seq<seq<Value>>, i: nat)
    requires i < |rows|
    ensures Tuples(rows[..i + 1]) ==
            Tuples(rows[..i]) + (if i == 0 then "(" else ", (") + BindVars(FirstWidth(rows[..i + 1])) + ")"
  {
    assert rows[..i + 1][..i] == rows[..i];
  }

  /** Writing the separator after a row, as the generator does, or before the next is the same. */
  lemma TupleText(done: string, bindStr: string, i: nat, n: nat)
    requires i < n && (i == 0 ==> done == "")
    ensures ("VALUES" + done + Sep(i, n)) + ("(" + bindStr + ")") ==
            "VALUES" + (done + (if i == 0 then "(" else ", (") + bindStr + ")")
  {
    assert ", " + "(" == ", (";
  }

  method GenValues(rows: seq<seq<Value>>) returns (sql: string, vars: seq<Value>)
    ensures sql == "VALUES" + Tuples(rows) && vars == Bound(rows)
  {
    sql, vars := "VALUES", [];
    var bindStr := "";
    var i := 0;
    while i < |rows|
      invariant 0 <= i <= |rows|
      invariant bindStr == BindVars(FirstWidth(rows[..i]))
      invariant sql == "VALUES" + Tuples(rows[..i]) + Sep(i, |rows|)
      invariant vars == Bound(rows[..i])
    {
      BindVarsSize(FirstWidth(rows[..i]));
      OneRowMore(rows, i);
      TuplesOneMore(rows, i);
      if bindStr == "" {
        bindStr := GenBindVars(|rows[i]|);
      }
      TupleText(Tuples(rows[..i]), bindStr, i, |rows|);
      sql := sql + ("(" + bindStr + ")");
      if i + 1 != |rows| {
        sql := sql + ", ";
      }
      vars := vars + rows[i];
      i := i + 1;
    }
    assert rows[..|rows|] == rows;
  }

  // ---- columns of an update ----

  function Assignments(order: seq<string>): (texts: seq<string>)
    ensures |texts| == |order|
  {
    if order == [] then [] else Assignments(order[..|order| - 1]) + [order[|order| - 1] + " = ?"]
  }

  function Assigned(items: map<string, Value>, order: seq<string>): (vars: seq<Value>)
    requires forall k :: k in order ==> k in items
    ensures |vars| == |order| && forall i :: 0 <= i < |order| ==> vars[i] == items[order[i]]
  {
    seq(|order|, i requires 0 <= i < |order| => assert order[i] in order; items[order[i]])
  }

  /** Some order in which a map may be walked through. */
  ghost predicate Walk(keys: set<string>, order: seq<string>) {
    NoRepeats(order) && forall k :: k in order <==> k in keys
  }

  function UpdateText(table: string, order: seq<string>): string {
    "UPDATE " + table + " SET " + Join(Assignments(order), ", ")
  }

  method GenUpdate(table: string, items: map<string, Value>)
    returns (sql: string, vars: seq<Value>, ghost order: seq<string>)
    ensures Walk(items.Keys, order)
    ensures sql == UpdateText(table, order)
    ensures vars == Assigned(items, order)
  {
    sql := "UPDATE " + table + " ";
    sql := sql + "SET ";
    var keys := [];
    vars, order := [], [];
    var rest := items.Keys;
    while rest != {}
      invariant rest <= items.Keys && Walk(items.Keys - rest, order)
      invariant keys == Assignments(order) && vars == Assigned(items, order)
      decreases rest
    {
      var k :| k in rest;
      ghost var longer := order + [k];
      assert longer[..|longer| - 1] == order;
      keys := keys + [k + " = ?"];
      vars := vars + [items[k]];
      order := longer;
      rest := rest - {k};
    }
    sql := sql + Join(keys, ", ");
  }

  // ---- every generator ----

  /** An order is needed for the columns of an update and for nothing else. */
  ghost predicate Ordered(q: Request, order: seq<string>) {
    if q.Update? then Walk(q.items.Keys, order) else order == []
  }

  function InsertText(table: string, fields: seq<string>): string {
    "INSERT INTO " + table + " (" + Join(fields, ",") + ")"
  }

  function SelectText(table: string, fields: seq<string>): string {
    "SELECT " + Join(fields, ",") + " FROM " + table
  }

  ghost function Generated(q: Request, order: seq<string>): Piece
    requires Ordered(q, order)
  {
    match q
    case Insert(table, fields) => Piece(InsertText(table, fields), [])
    case Values(rows) => Piece("VALUES" + Tuples(rows), Bound(rows))
    case Select(table, fields) => Piece(SelectText(table, fields), [])
    case Limit(limit) => Piece("LIMIT " + Decimal(limit), [])
    case Where(desc, args) => Piece("WHERE " + desc, args)
    case OrderBy(desc) => Piece("ORDER BY " + desc, [])
    case Update(table, items) => Piece(UpdateText(table, order), Assigned(items, order))
    case Delete(table) => Piece("DELETE FROM " + table, [])
    case Count(table) => Piece(SelectText(table, ["COUNT(*)"]), [])
  }

  method Generate(q: Request) returns (sql: string, vars: seq<Value>, ghost order: seq<string>)
    ensures Ordered(q, order) && Piece(sql, vars) == Generated(q, order)
  {
    vars, order := [], [];
    match q
    case Insert(table, fields) => sql := InsertText(table, fields);
    case Values(rows) => sql, vars := GenValues(rows);
    case Select(table, fields) => sql := SelectText(table, fields);
    case Limit(limit) => sql := "LIMIT " + Decimal(limit);
    case Where(desc, args) => sql, vars := "WHERE " + desc, args;
    case OrderBy(desc) => sql := "ORDER BY " + desc;
    case Update(table, items) => sql, vars, order := GenUpdate(table, items);
    case Delete(table) => sql := "DELETE FROM " + table;
    case Count(table) => sql := SelectText(table, ["COUNT(*)"]);
  }
}
