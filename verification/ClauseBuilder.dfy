/** Collecting clauses and building one statement out of them. */
module ClauseBuilder {
  import opened Text
  import opened Generator
  import opened Alignment

  function Texts(ps: seq<Piece>): (texts: seq<string>)
    ensures |texts| == |ps|
  {
    if ps == [] then [] else Texts(ps[..|ps| - 1]) + [ps[|ps| - 1].sql]
  }

  function AllVars(ps: seq<Piece>): seq<Value> {
    if ps == [] then [] else AllVars(ps[..|ps| - 1]) + ps[|ps| - 1].vars
  }

  function Statement(ps: seq<Piece>): string {
    Join(Texts(ps), " ")
  }

  /** The clauses that are there, in the order asked for. */
  function Chosen(pieces: map<Kind, Piece>, kinds: seq<Kind>): seq<Piece> {
    if kinds == [] then []
    else
      var last := kinds[|kinds| - 1];
      Chosen(pieces, kinds[..|kinds| - 1]) + if last in pieces then [pieces[last]] else []
  }

  class Clause {
    var sql: map<Kind, string>
    var sqlVars: map<Kind, seq<Value>>

    ghost predicate Valid()
      reads this
    {
      sql.Keys == sqlVars.Keys
    }

    ghost function Pieces(): map<Kind, Piece>
      requires Valid()
      reads this
    {
      map k | k in sql :: Piece(sql[k], sqlVars[k])
    }

    constructor ()
      ensures Valid() && Pieces() == map[]
    {
      sql, sqlVars := map[], map[];
    }

    /** A later clause of the same kind takes the place of an earlier one. */
    method Set(q: Request) returns (ghost order: seq<string>)
      requires Valid()
      modifies this
      ensures Valid() && Ordered(q, order)
      ensures Pieces() == old(Pieces())[q.Kind() := Generated(q, order)]
    {
      var text, vars;
      text, vars, order := Generate(q);
      Store(q.Kind(), text, vars);
    }

    method Store(kind: Kind, text: string, vars: seq<Value>)
      requires Valid()
      modifies this
      ensures Valid() && Pieces() == old(Pieces())[kind := Piece(text, vars)]
    {
      sql := sql[kind := text];
      sqlVars := sqlVars[kind := vars];
    }

    method Build(kinds: seq<Kind>) returns (statement: string, vars: seq<Value>)
      requires Valid()
      modifies this
      ensures Valid() && Pieces() == map[]
      ensures statement == Statement(Chosen(old(Pieces()), kinds))
      ensures vars == AllVars(Chosen(old(Pieces()), kinds))
      ensures old(forall k :: k in Pieces() ==> Balanced(Pieces()[k])) ==> Placeholders(statement) == |vars|
    {
      var sqls: seq<string>;
      sqls, vars := [], [];
      ghost var ps: seq<Piece> := [];
      var i := 0;
      while i < |kinds|
        invariant 0 <= i <= |kinds|
        invariant Valid() && sql == old(sql) && sqlVars == old(sqlVars)
        invariant ps == Chosen(Pieces(), kinds[..i])
        invariant sqls == Texts(ps) && vars == AllVars(ps)
      {
        assert kinds[..i + 1][..i] == kinds[..i];
        if kinds[i] in sql {
          ghost var longer := ps + [Pieces()[kinds[i]]];
          assert longer[..|longer| - 1] == ps;
          sqls := sqls + [sql[kinds[i]]];
          vars := vars + sqlVars[kinds[i]];
          ps := longer;
        }
        i := i + 1;
      }
      assert kinds[..|kinds|] == kinds;
      statement := Join(sqls, " ");
      if forall k :: k in Pieces() ==> Balanced(Pieces()[k]) {
        BuildIsBalanced(Pieces(), kinds);
      }
      sql, sqlVars := map[], map[];
    }
  }

  // ---- what the statement binds ----

  function Space(k: nat): string {
    if k == 0 then "" else " "
  }

  lemma {:induction false} OnePieceMore(ps: seq<Piece>, k: nat)
    requires k < |ps|
    ensures Statement(ps[..k + 1]) == Statement(ps[..k]) + Space(k) + ps[k].sql
    ensures AllVars(ps[..k + 1]) == AllVars(ps[..k]) + ps[k].vars
  {
    assert ps[..k + 1][..k] == ps[..k];
    JoinOneMore(Texts(ps[..k]), " ", ps[k].sql);
  }

  lemma {:induction false} PiecesPrefix(ps: seq<Piece>, k: nat)
    requires k <= |ps|
    ensures Statement(ps[..k]) <= Statement(ps) && AllVars(ps[..k]) <= AllVars(ps)
    decreases |ps| - k
  {
    if k == |ps| {
      assert ps[..k] == ps;
    } else {
      PiecesPrefix(ps, k + 1);
      OnePieceMore(ps, k);
    }
  }

  /** After the first `k` clauses of the statement as many placeholders as values have gone by. */
  ghost predicate EvenAt(ps: seq<Piece>, k: nat)
    requires k <= |ps|
  {
    Placeholders(Statement(ps[..k])) == |AllVars(ps[..k])|
  }

  lemma EvenOneMore(ps: seq<Piece>, k: nat)
    requires k < |ps| && EvenAt(ps, k)
    ensures EvenAt(ps, k + 1) <==> Balanced(ps[k])
  {
    OnePieceMore(ps, k);
    PlaceholdersAdd(Statement(ps[..k]) + Space(k), ps[k].sql);
    PlaceholdersAdd(Statement(ps[..k]), Space(k));
    NoPlaceholder(Space(k));
  }

  lemma {:induction false} BalancedIsEven(ps: seq<Piece>, k: nat)
    requires k <= |ps| && forall i :: 0 <= i < k ==> Balanced(ps[i])
    ensures EvenAt(ps, k)
  {
    if k > 0 {
      BalancedIsEven(ps, k - 1);
      EvenOneMore(ps, k - 1);
    }
  }

  /** Whatever clauses are built in whatever order: each lies over its own values exactly when each is balanced. */
  lemma {:induction false} StatementAlignedIff(ps: seq<Piece>)
    ensures (forall k :: 0 <= k <= |ps| ==> EvenAt(ps, k)) <==> forall k :: 0 <= k < |ps| ==> Balanced(ps[k])
  {
    if forall k :: 0 <= k < |ps| ==> Balanced(ps[k]) {
      forall k | 0 <= k <= |ps| ensures EvenAt(ps, k) {
        BalancedIsEven(ps, k);
      }
    }
    if forall k :: 0 <= k <= |ps| ==> EvenAt(ps, k) {
      forall k | 0 <= k < |ps| ensures Balanced(ps[k]) {
        assert EvenAt(ps, k) && EvenAt(ps, k + 1);
        EvenOneMore(ps, k);
      }
    }
  }

  /** Every choice from balanced clauses, repeated or missing ones included, is a balanced statement. */
  lemma {:induction false} BuildIsBalanced(pieces: map<Kind, Piece>, kinds: seq<Kind>)
    requires forall k :: k in pieces ==> Balanced(pieces[k])
    ensures var ps := Chosen(pieces, kinds); Placeholders(Statement(ps)) == |AllVars(ps)|
  {
    var ps := Chosen(pieces, kinds);
    ChosenBalanced(pieces, kinds);
    BalancedIsEven(ps, |ps|);
    assert ps[..|ps|] == ps;
  }

  lemma {:induction false} ChosenBalanced(pieces: map<Kind, Piece>, kinds: seq<Kind>)
    requires forall k :: k in pieces ==> Balanced(pieces[k])
    ensures forall i :: 0 <= i < |Chosen(pieces, kinds)| ==> Balanced(Chosen(pieces, kinds)[i])
  {
    if kinds != [] {
      var before, last := Chosen(pieces, kinds[..|kinds| - 1]), kinds[|kinds| - 1];
      ChosenBalanced(pieces, kinds[..|kinds| - 1]);
      assert last in pieces ==> Balanced(pieces[last]);
    }
  }

  /**
   * A placeholder of one clause, behind `head` in its text, in the whole statement: it has the
   * same number counted from the first value of the clause, and binds the same value.
   */
  lemma {:induction false} PlaceholderInStatement(ps: seq<Piece>, k: nat, head: string)
    requires k < |ps| && forall i :: 0 <= i < k ==> Balanced(ps[i])
    requires head + "?" <= ps[k].sql && Placeholders(head) < |ps[k].vars|
    ensures var all, n := Statement(ps[..k]) + Space(k) + head, |AllVars(ps[..k])| + Placeholders(head);
            && all + "?" <= Statement(ps) && Placeholders(all) == n
            && n < |AllVars(ps)| && AllVars(ps)[n] == ps[k].vars[Placeholders(head)]
  {
    BalancedIsEven(ps, k);
    OnePieceMore(ps, k);
    PiecesPrefix(ps, k + 1);
    var before := Statement(ps[..k]) + Space(k);
    PlaceholdersAdd(before, head);
    PlaceholdersAdd(Statement(ps[..k]), Space(k));
    NoPlaceholder(Space(k));
    HeadInStatement(before, head, ps[k].sql, Statement(ps));
    assert AllVars(ps[..k + 1])[|AllVars(ps[..k])| + Placeholders(head)] == ps[k].vars[Placeholders(head)];
  }

  lemma HeadInStatement(before: string, head: string, text: string, all: string)
    requires head + "?" <= text && before + text <= all
    ensures before + head + "?" <= all
  {
    assert before + head + "?" == before + (head + "?");
  }

  lemma {:induction false} SecondOfTwo(first: Piece, second: Piece, head: string)
    requires Balanced(first) && head + "?" <= second.sql && Placeholders(head) < |second.vars|
    ensures var ps, j := [first, second], Placeholders(head);
            && first.sql + " " + head + "?" <= Statement(ps)
            && Placeholders(first.sql + " " + head) == |first.vars| + j
            && |first.vars| + j < |AllVars(ps)| && AllVars(ps)[|first.vars| + j] == second.vars[j]
  {
    var ps := [first, second];
    PlaceholderInStatement(ps, 1, head);
    assert ps[..1] == [first];
    assert Texts([first]) == [first.sql];
    assert AllVars([first]) == first.vars;
  }

  /** An insert as a session builds it: row r and column c of the record values. */
  lemma {:induction false} InsertStatement(table: string, fields: seq<string>, rows: seq<seq<Value>>,
                                               w: nat, r: nat, c: nat)
    requires '?' !in table && forall f :: f in fields ==> '?' !in f
    requires (forall k :: 0 <= k < |rows| ==> |rows[k]| == w) && r < |rows| && c < w
    ensures var ps := [Generated(Insert(table, fields), []), Generated(Values(rows), [])];
            var head := InsertText(table, fields) + " " + UpTo(rows, w, r, c);
            && head + "?" <= Statement(ps) && Placeholders(head) == r * w + c
            && r * w + c < |AllVars(ps)| && AllVars(ps)[r * w + c] == rows[r][c]
  {
    BalancedIff(Insert(table, fields), []);
    PlaceholderOfRow(rows, w, r, c);
    SecondOfTwo(Generated(Insert(table, fields), []), Generated(Values(rows), []), UpTo(rows, w, r, c));
  }

  lemma ConditionPlaceholder(desc: string, args: seq<Value>, head: string)
    requires Placeholders(desc) == |args| && head + "?" <= desc
    ensures Placeholders("WHERE " + head) == Placeholders(head) < |args|
    ensures ("WHERE " + head) + "?" <= "WHERE " + desc
  {
    PlaceholdersAdd(head, "?");
    assert desc == head + "?" + desc[|head| + 1..];
    PlaceholdersAdd(head + "?", desc[|head| + 1..]);
    PlaceholdersAdd("WHERE ", head);
    NoPlaceholder("WHERE ");
  }

  /** An update with a condition: the columns come first, and the condition's arguments follow them. */
  lemma {:induction false} UpdateStatement(table: string, items: map<string, Value>, order: seq<string>,
                                               desc: string, args: seq<Value>, head: string)
    requires Walk(items.Keys, order) && '?' !in table && forall name :: name in items ==> '?' !in name
    requires Placeholders(desc) == |args| && head + "?" <= desc
    ensures var ps := [Generated(Update(table, items), order), Generated(Where(desc, args), [])];
            var all, j := UpdateText(table, order) + " " + ("WHERE " + head), Placeholders(head);
            && all + "?" <= Statement(ps) && Placeholders(all) == |items| + j
            && j < |args| && |items| + j < |AllVars(ps)| && AllVars(ps)[|items| + j] == args[j]
  {
    BalancedIff(Update(table, items), order);
    WalkLength(items.Keys, order);
    ConditionPlaceholder(desc, args, head);
    SecondOfTwo(Generated(Update(table, items), order), Generated(Where(desc, args), []), "WHERE " + head);
  }
}
