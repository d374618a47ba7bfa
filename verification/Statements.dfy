/** The statements that a session builds, written out, and what can be read back from them. */
module Statements {
  import opened Text
  import opened Generator
  import opened ClauseBuilder
  import A = AddressList

  // ---- the clauses chosen ----

  lemma {:induction false} ChosenAppend(pieces: map<Kind, Piece>, a: seq<Kind>, b: seq<Kind>)
    ensures Chosen(pieces, a + b) == Chosen(pieces, a) + Chosen(pieces, b)
  {
    if b == [] {
      assert a + b == a;
    } else {
      assert (a + b)[..|a + b| - 1] == a + b[..|b| - 1];
      ChosenAppend(pieces, a, b[..|b| - 1]);
    }
  }

  /** At its place in the order asked for, a clause is there once if it has been set, and not at all
      if it has not, whatever is asked for before and after it. */
  lemma {:induction false} ChosenAround(pieces: map<Kind, Piece>, before: seq<Kind>, kind: Kind, after: seq<Kind>)
    ensures Chosen(pieces, before + [kind] + after) ==
            Chosen(pieces, before) + (if kind in pieces then [pieces[kind]] else []) + Chosen(pieces, after)
  {
    ChosenAppend(pieces, before + [kind], after);
    ChosenAppend(pieces, before, [kind]);
    assert [kind][..0] == [];
  }

  lemma {:induction false} ChosenAll(pieces: map<Kind, Piece>, kinds: seq<Kind>)
    requires forall k :: k in kinds ==> k in pieces
    ensures |Chosen(pieces, kinds)| == |kinds|
    ensures forall i :: 0 <= i < |kinds| ==> Chosen(pieces, kinds)[i] == pieces[kinds[i]]
  {
    if kinds != [] {
      ChosenAll(pieces, kinds[..|kinds| - 1]);
      assert kinds[|kinds| - 1] in kinds;
    }
  }

  lemma {:induction false} OnePiece(p: Piece)
    ensures Statement([p]) == p.sql && AllVars([p]) == p.vars
  {
    assert [p][..0] == [];
    assert Texts([p]) == [p.sql];
  }

  /** A statement grows clause by clause, with a space between them. */
  lemma {:induction false} PieceBehind(ps: seq<Piece>, p: Piece)
    requires ps != []
    ensures Statement(ps + [p]) == Statement(ps) + " " + p.sql && AllVars(ps + [p]) == AllVars(ps) + p.vars
  {
    assert (ps + [p])[..|ps|] == ps;
    JoinOneMore(Texts(ps), " ", p.sql);
  }

  lemma {:induction false} TwoPieces(p: Piece, q: Piece)
    ensures Statement([p, q]) == p.sql + " " + q.sql && AllVars([p, q]) == p.vars + q.vars
  {
    OnePiece(p);
    PieceBehind([p], q);
    assert [p] + [q] == [p, q];
  }

  lemma {:induction false} FourPieces(p: Piece, q: Piece, r: Piece, s: Piece)
    ensures Statement([p, q, r, s]) == p.sql + " " + q.sql + " " + r.sql + " " + s.sql
    ensures AllVars([p, q, r, s]) == p.vars + q.vars + r.vars + s.vars
  {
    TwoPieces(p, q);
    PieceBehind([p, q], r);
    PieceBehind([p, q, r], s);
    assert [p, q] + [r] == [p, q, r] && [p, q, r] + [s] == [p, q, r, s];
  }

  /** What is set when these requests have been made, each of another kind. */
  ghost function SetBy(qs: seq<Request>): map<Kind, Piece>
    requires forall i :: 0 <= i < |qs| ==> !qs[i].Update?
  {
    if qs == [] then map[]
    else SetBy(qs[..|qs| - 1])[qs[|qs| - 1].Kind() := Generated(qs[|qs| - 1], [])]
  }

  lemma {:induction false} SetByTwo(p: Request, q: Request)
    requires !p.Update? && !q.Update?
    ensures SetBy([p, q]) == map[p.Kind() := Generated(p, [])][q.Kind() := Generated(q, [])]
  {
    assert [p, q][..1] == [p] && [p][..0] == [];
    assert SetBy([p]) == map[p.Kind() := Generated(p, [])];
  }

  // ---- the statements of a session ----

  /** An insert: the fields of the table, and the rows behind them. */
  lemma {:induction false} BuiltInsert(table: string, fields: seq<string>, rows: seq<seq<Value>>)
    ensures var ps := Chosen(SetBy([Insert(table, fields), Values(rows)]), [INSERT, VALUES]);
            && Statement(ps) == "INSERT INTO " + table + " (" + Join(fields, ",") + ")" + " " + "VALUES" + Tuples(rows)
            && AllVars(ps) == Bound(rows)
  {
    var p, q := Insert(table, fields), Values(rows);
    SetByTwo(p, q);
    var ps := Chosen(SetBy([p, q]), [INSERT, VALUES]);
    ChosenAll(SetBy([p, q]), [INSERT, VALUES]);
    assert ps == [Generated(p, []), Generated(q, [])];
    TwoPieces(ps[0], ps[1]);
    Between(InsertText(table, fields), " ", "VALUES", Tuples(rows));
  }

  lemma Between(a: string, b: string, c: string, d: string)
    ensures a + b + (c + d) == a + b + c + d
  {
  }

  /** A deletion with a condition. */
  lemma {:induction false} BuiltDelete(table: string, desc: string, args: seq<Value>)
    ensures var ps := Chosen(SetBy([Delete(table), Where(desc, args)]), [DELETE, WHERE]);
            && Statement(ps) == "DELETE FROM " + table + " " + "WHERE " + desc
            && AllVars(ps) == args
  {
    var p, q := Delete(table), Where(desc, args);
    SetByTwo(p, q);
    var ps := Chosen(SetBy([p, q]), [DELETE, WHERE]);
    ChosenAll(SetBy([p, q]), [DELETE, WHERE]);
    assert ps == [Generated(p, []), Generated(q, [])];
    TwoPieces(ps[0], ps[1]);
    Between("DELETE FROM " + table, " ", "WHERE ", desc);
  }

  /** A count with a condition. */
  lemma {:induction false} BuiltCount(table: string, desc: string, args: seq<Value>)
    ensures var ps := Chosen(SetBy([Count(table), Where(desc, args)]), [COUNT, WHERE]);
            && Statement(ps) == "SELECT " + "COUNT(*)" + " FROM " + table + " " + "WHERE " + desc
            && AllVars(ps) == args
  {
    var p, q := Count(table), Where(desc, args);
    SetByTwo(p, q);
    var ps := Chosen(SetBy([p, q]), [COUNT, WHERE]);
    ChosenAll(SetBy([p, q]), [COUNT, WHERE]);
    assert ps == [Generated(p, []), Generated(q, [])];
    TwoPieces(ps[0], ps[1]);
    assert Join(["COUNT(*)"], ",") == "COUNT(*)";
    Between(SelectText(table, ["COUNT(*)"]), " ", "WHERE ", desc);
  }

  lemma {:induction false} AssignmentsAt(order: seq<string>, i: nat)
    requires i < |order|
    ensures Assignments(order)[i] == order[i] + " = ?"
  {
    if i < |order| - 1 {
      AssignmentsAt(order[..|order| - 1], i);
    }
  }

  /** An update with a condition, its columns in whatever order they came out. */
  lemma {:induction false} BuiltUpdate(table: string, items: map<string, Value>, order: seq<string>,
                                           desc: string, args: seq<Value>)
    requires Walk(items.Keys, order)
    ensures var p, q := Update(table, items), Where(desc, args);
            var ps := Chosen(map[p.Kind() := Generated(p, order)][q.Kind() := Generated(q, [])], [UPDATE, WHERE]);
            && Statement(ps) == "UPDATE " + table + " SET " + Join(Assignments(order), ", ") + " " + "WHERE " + desc
            && AllVars(ps) == Assigned(items, order) + args
  {
    var p, q := Update(table, items), Where(desc, args);
    var pieces := map[p.Kind() := Generated(p, order)][q.Kind() := Generated(q, [])];
    var ps := Chosen(pieces, [UPDATE, WHERE]);
    ChosenAll(pieces, [UPDATE, WHERE]);
    assert ps == [Generated(p, order), Generated(q, [])];
    TwoPieces(ps[0], ps[1]);
    Between(UpdateText(table, order), " ", "WHERE ", desc);
  }

  predicate OneOfEach(qs: seq<Request>) {
    && (forall i :: 0 <= i < |qs| ==> !qs[i].Update?)
    && (forall i, j :: 0 <= i < j < |qs| ==> qs[i].Kind() != qs[j].Kind())
  }

  lemma {:induction false} IsSet(qs: seq<Request>, i: nat)
    requires OneOfEach(qs) && i < |qs|
    ensures qs[i].Kind() in SetBy(qs) && SetBy(qs)[qs[i].Kind()] == Generated(qs[i], [])
  {
    if i < |qs| - 1 {
      IsSet(qs[..|qs| - 1], i);
    }
  }

  /** A query with a condition, an order and a limit, in whatever order a caller has chained them. */
  lemma {:induction false} BuiltSelect(qs: seq<Request>, table: string, fields: seq<string>,
                                           desc: string, args: seq<Value>, ranking: string, limit: int)
    requires OneOfEach(qs)
    requires Select(table, fields) in qs && Where(desc, args) in qs && OrderBy(ranking) in qs && Limit(limit) in qs
    ensures var ps := Chosen(SetBy(qs), [SELECT, WHERE, ORDERBY, LIMIT]);
            && Statement(ps) == "SELECT " + Join(fields, ",") + " FROM " + table + " " + ("WHERE " + desc) + " " +
                                ("ORDER BY " + ranking) + " " + ("LIMIT " + Decimal(limit))
            && AllVars(ps) == args
  {
    var kinds := [SELECT, WHERE, ORDERBY, LIMIT];
    forall i | 0 <= i < |qs| ensures qs[i].Kind() in SetBy(qs) && SetBy(qs)[qs[i].Kind()] == Generated(qs[i], []) {
      IsSet(qs, i);
    }
    var ps := Chosen(SetBy(qs), kinds);
    ChosenAll(SetBy(qs), kinds);
    assert ps[0] == Generated(Select(table, fields), []) && ps[1] == Generated(Where(desc, args), []);
    assert ps[2] == Generated(OrderBy(ranking), []) && ps[3] == Generated(Limit(limit), []);
    assert ps == [ps[0], ps[1], ps[2], ps[3]];
    FourPieces(ps[0], ps[1], ps[2], ps[3]);
  }

  // ---- reading back ----

  /** A limit is written as the number it is. */
  lemma DecimalReads(n: int)
    ensures n >= 0 ==> IsPlain(Decimal(n)) && Reads(Decimal(n)) == n
    ensures n < 0 ==> Decimal(n)[0] == '-' && IsPlain(Decimal(n)[1..]) && Reads(Decimal(n)[1..]) == -n
  {
    ItoaReads(if n < 0 then -n else n);
    assert n < 0 ==> Decimal(n)[1..] == Itoa(-n);
  }

  /** Names as they are used in statements: without spaces, commas and parentheses. */
  predicate IsName(name: string) {
    ' ' !in name && ',' !in name && ')' !in name
  }

  lemma {:induction false} ListHasNo(names: seq<string>, c: char)
    requires c != ',' && forall name :: name in names ==> c !in name
    ensures c !in Join(names, ",")
  {
    if |names| > 1 {
      ListHasNo(names[1..], c);
    }
  }

  lemma FirstCut(a: string, x: string, a': string, x': string, c: char)
    requires c !in a && c !in a' && x != [] && x' != [] && x[0] == c == x'[0] && a + x == a' + x'
    ensures a == a' && x == x'
  {
    var s := a + x;
    assert s[|a|] == c && s[|a'|] == c;
    assert forall i :: 0 <= i < |a| ==> s[i] == a[i];
    assert forall i :: 0 <= i < |a'| ==> s[i] == a'[i];
    assert |a| == |a'|;
    assert a == s[..|a|] && x == s[|a|..];
    assert a' == s[..|a|] && x' == s[|a|..];
  }

  lemma SameBehind(head: string, x: string, x': string)
    requires head + x == head + x'
    ensures x == x'
  {
    assert x == (head + x)[|head|..];
    assert x' == (head + x')[|head|..];
  }

  /** From the text of a query one can tell the fields, in their order, and the table. */
  lemma {:induction false} SelectReadsBack(table: string, fields: seq<string>, table': string, fields': seq<string>)
    requires fields != [] && fields' != []
    requires forall f :: f in fields || f in fields' ==> IsName(f)
    requires SelectText(table, fields) == SelectText(table', fields')
    ensures table == table' && fields == fields'
  {
    var l, l' := Join(fields, ","), Join(fields', ",");
    assert SelectText(table, fields) == "SELECT " + (l + (" FROM " + table));
    assert SelectText(table', fields') == "SELECT " + (l' + (" FROM " + table'));
    SameBehind("SELECT ", l + (" FROM " + table), l' + (" FROM " + table'));
    ListHasNo(fields, ' ');
    ListHasNo(fields', ' ');
    FirstCut(l, " FROM " + table, l', " FROM " + table', ' ');
    SameBehind(" FROM ", table, table');
    A.SplitJoin(fields);
    A.SplitJoin(fields');
  }

  /** And from that of an insert. */
  lemma {:induction false} InsertReadsBack(table: string, fields: seq<string>, table': string, fields': seq<string>)
    requires fields != [] && fields' != [] && IsName(table) && IsName(table')
    requires forall f :: f in fields || f in fields' ==> IsName(f)
    requires InsertText(table, fields) == InsertText(table', fields')
    ensures table == table' && fields == fields'
  {
    var l, l' := Join(fields, ","), Join(fields', ",");
    assert InsertText(table, fields) == "INSERT INTO " + (table + (" (" + (l + ")")));
    assert InsertText(table', fields') == "INSERT INTO " + (table' + (" (" + (l' + ")")));
    SameBehind("INSERT INTO ", table + (" (" + (l + ")")), table' + (" (" + (l' + ")")));
    FirstCut(table, " (" + (l + ")"), table', " (" + (l' + ")"), ' ');
    SameBehind(" (", l + ")", l' + ")");
    ListHasNo(fields, ')');
    ListHasNo(fields', ')');
    FirstCut(l, ")", l', ")", ')');
    A.SplitJoin(fields);
    A.SplitJoin(fields');
  }

  /** The groups of an insert, one for each row and each in parentheses, with commas between them. */
  function Groups(rows: seq<seq<Value>>): (groups: seq<string>)
    ensures |groups| == |rows|
  {
    if rows == [] then []
    else Groups(rows[..|rows| - 1]) + ["(" + BindVars(FirstWidth(rows)) + ")"]
  }

  lemma {:induction false} TuplesAreGroups(rows: seq<seq<Value>>)
    ensures Tuples(rows) == Join(Groups(rows), ", ")
  {
    if rows != [] {
      var before, row := rows[..|rows| - 1], BindVars(FirstWidth(rows));
      TuplesAreGroups(before);
      JoinOneMore(Groups(before), ", ", "(" + row + ")");
      if before == [] {
        assert Tuples(rows) == "" + "(" + row + ")" == "(" + row + ")";
      } else {
        assert Tuples(rows) == Tuples(before) + ", (" + row + ")";
        assert ", " + ("(" + row + ")") == ", (" + row + ")";
      }
    }
  }
}
