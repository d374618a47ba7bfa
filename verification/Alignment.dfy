/** Which value each placeholder of a generated clause binds. */
module Alignment {
  import opened Basics
  import opened Text
  import opened Generator

  ghost predicate Balanced(p: Piece) {
    Placeholders(p.sql) == |p.vars|
  }

  // ---- rows of values ----

  /** The placeholders written for all the rows. */
  function Slots(rows: seq<seq<Value>>): nat {
    if rows == [] then 0 else Slots(rows[..|rows| - 1]) + FirstWidth(rows)
  }

  lemma OneTuple(done: string, opening: string, w: nat)
    requires opening == "(" || opening == ", ("
    ensures Placeholders(done + opening + BindVars(w) + ")") == Placeholders(done) + w
  {
    BindVarsSize(w);
    PlaceholdersAdd(done + opening + BindVars(w), ")");
    PlaceholdersAdd(done + opening, BindVars(w));
    PlaceholdersAdd(done, opening);
    NoPlaceholder(opening);
    NoPlaceholder(")");
  }

  lemma {:induction false} TuplesPlaceholders(rows: seq<seq<Value>>)
    ensures Placeholders(Tuples(rows)) == Slots(rows)
  {
    if rows == [] {
      NoPlaceholder("");
    } else {
      var before := rows[..|rows| - 1];
      TuplesPlaceholders(before);
      OneTuple(Tuples(before), if before == [] then "(" else ", (", FirstWidth(rows));
    }
  }

  lemma {:induction false} SlotsOneMore(rows: seq<seq<Value>>, i: nat)
    requires i < |rows|
    ensures Slots(rows[..i + 1]) == Slots(rows[..i]) + FirstWidth(rows[..i + 1])
  {
    assert rows[..i + 1][..i] == rows[..i];
  }

  /** Once a row is not empty, the rows that follow it are written as wide as before. */
  lemma {:induction false} WidthStays(rows: seq<seq<Value>>, i: nat, j: nat)
    requires i <= j <= |rows| && FirstWidth(rows[..i]) > 0
    ensures FirstWidth(rows[..j]) == FirstWidth(rows[..i])
    decreases j
  {
    if i < j {
      WidthStays(rows, i, j - 1);
      OneRowMore(rows, j - 1);
    }
  }

  lemma {:induction false} WidthOfARow(rows: seq<seq<Value>>, i: nat) returns (k: nat)
    requires i <= |rows| && FirstWidth(rows[..i]) > 0
    ensures k < i && |rows[k]| == FirstWidth(rows[..i])
    decreases i
  {
    if i > 0 {
      OneRowMore(rows, i - 1);
      if FirstWidth(rows[..i - 1]) > 0 {
        k := WidthOfARow(rows, i - 1);
      } else {
        k := i - 1;
      }
    }
  }

  /** Behind a row that is not empty all rows are as long as it. */
  ghost predicate SameWidth(rows: seq<seq<Value>>) {
    forall i, j :: 0 <= i < j < |rows| && rows[i] != [] ==> |rows[j]| == |rows[i]|
  }

  /** As many values as placeholders belong to the first `i` rows. */
  ghost predicate Even(rows: seq<seq<Value>>, i: nat)
    requires i <= |rows|
  {
    Slots(rows[..i]) == |Bound(rows[..i])|
  }

  lemma {:induction false} SameWidthEven(rows: seq<seq<Value>>, i: nat)
    requires SameWidth(rows) && i <= |rows|
    ensures Even(rows, i)
  {
    if i > 0 {
      SameWidthEven(rows, i - 1);
      OneRowMore(rows, i - 1);
      SlotsOneMore(rows, i - 1);
      if FirstWidth(rows[..i - 1]) > 0 {
        var k := WidthOfARow(rows, i - 1);
        assert |rows[i - 1]| == |rows[k]|;
      }
    }
  }

  lemma {:induction false} EvenSameWidth(rows: seq<seq<Value>>, i: nat, j: nat)
    requires i < j < |rows| && rows[i] != []
    requires Even(rows, i) && Even(rows, i + 1) && Even(rows, j) && Even(rows, j + 1)
    ensures |rows[j]| == |rows[i]|
  {
    OneRowMore(rows, i);
    SlotsOneMore(rows, i);
    OneRowMore(rows, j);
    SlotsOneMore(rows, j);
    WidthStays(rows, i + 1, j + 1);
  }

  /** After the text of the first `i` rows, as many placeholders as values have gone by. */
  ghost predicate AlignedAt(rows: seq<seq<Value>>, i: nat)
    requires i <= |rows|
  {
    Placeholders(Tuples(rows[..i])) == |Bound(rows[..i])|
  }

  /** Every row lies under its own placeholders if and only if the rows are equally wide. */
  lemma {:induction false} RowsAlignedIff(rows: seq<seq<Value>>)
    ensures (forall i :: 0 <= i <= |rows| ==> AlignedAt(rows, i)) <==> SameWidth(rows)
  {
    forall i | 0 <= i <= |rows| ensures AlignedAt(rows, i) <==> Even(rows, i) {
      TuplesPlaceholders(rows[..i]);
    }
    if SameWidth(rows) {
      forall i | 0 <= i <= |rows| ensures AlignedAt(rows, i) {
        SameWidthEven(rows, i);
      }
    }
    if forall i :: 0 <= i <= |rows| ==> AlignedAt(rows, i) {
      forall i, j | 0 <= i < j < |rows| && rows[i] != [] ensures |rows[j]| == |rows[i]| {
        assert AlignedAt(rows, i) && AlignedAt(rows, i + 1) && AlignedAt(rows, j) && AlignedAt(rows, j + 1);
        EvenSameWidth(rows, i, j);
      }
    }
  }

  /** Rows of unequal width can have the right number of placeholders and still bind the wrong ones. */
  lemma {:induction false} RaggedRows(rows: seq<seq<Value>>)
    requires |rows| == 3 && |rows[0]| == 2 && |rows[1]| == 1 && |rows[2]| == 3
    ensures Placeholders(Tuples(rows)) == |Bound(rows)| && !AlignedAt(rows, 2)
  {
    assert rows[..0] == [] && rows[..3] == rows;
    OneRowMore(rows, 0);
    SlotsOneMore(rows, 0);
    OneRowMore(rows, 1);
    SlotsOneMore(rows, 1);
    OneRowMore(rows, 2);
    SlotsOneMore(rows, 2);
    TuplesPlaceholders(rows[..2]);
    TuplesPlaceholders(rows);
  }

  lemma {:induction false} TuplesPrefix(rows: seq<seq<Value>>, i: nat)
    requires i <= |rows|
    ensures Tuples(rows[..i]) <= Tuples(rows)
    ensures Bound(rows[..i]) <= Bound(rows)
    decreases |rows| - i
  {
    if i == |rows| {
      assert rows[..i] == rows;
    } else {
      TuplesPrefix(rows, i + 1);
      OneRowMore(rows, i);
      TuplesOneMore(rows, i);
    }
  }

  lemma {:induction false} EqualRows(rows: seq<seq<Value>>, w: nat, i: nat)
    requires i <= |rows| && forall k :: 0 <= k < |rows| ==> |rows[k]| == w
    ensures |Bound(rows[..i])| == i * w == Slots(rows[..i]) && (i > 0 ==> FirstWidth(rows[..i]) == w)
  {
    if i > 0 {
      EqualRows(rows, w, i - 1);
      OneRowMore(rows, i - 1);
      SlotsOneMore(rows, i - 1);
      assert i * w == (i - 1) * w + w;
    }
  }

  /** The text of an insert up to the placeholder of row `r` and column `c`. */
  function UpTo(rows: seq<seq<Value>>, w: nat, r: nat, c: nat): string
    requires r < |rows| && c < w
  {
    BindVarsAt(w, c);
    "VALUES" + (Tuples(rows[..r]) + (if r == 0 then "(" else ", (") + BindVars(w)[..3 * c])
  }

  lemma UpToPlaceholders(done: string, opening: string, mark: string)
    requires opening == "(" || opening == ", ("
    ensures Placeholders("VALUES" + (done + opening + mark)) == Placeholders(done) + Placeholders(mark)
  {
    PlaceholdersAdd("VALUES", done + opening + mark);
    PlaceholdersAdd(done + opening, mark);
    PlaceholdersAdd(done, opening);
    NoPlaceholder("VALUES");
    NoPlaceholder(opening);
  }

  lemma PrefixText(done: string, opening: string, row: string, k: nat, all: string)
    requires k < |row| && done + opening + row + ")" <= all
    ensures var head := "VALUES" + (done + opening + row[..k]);
            head + [row[k]] <= "VALUES" + all
  {
    var longer := done + opening + row;
    assert (done + opening + row[..k]) + [row[k]] == longer[..|done + opening| + k + 1];
  }

  lemma {:induction false} ValueOfRow(rows: seq<seq<Value>>, w: nat, r: nat, c: nat)
    requires forall k :: 0 <= k < |rows| ==> |rows[k]| == w
    requires r < |rows| && c < w
    ensures r * w + c < |Bound(rows)| == |rows| * w && Bound(rows)[r * w + c] == rows[r][c]
  {
    EqualRows(rows, w, r);
    EqualRows(rows, w, |rows|);
    assert rows[..|rows|] == rows;
    TuplesPrefix(rows, r + 1);
    OneRowMore(rows, r);
    assert Bound(rows[..r + 1])[r * w + c] == rows[r][c];
  }

  lemma {:induction false} TextOfRow(rows: seq<seq<Value>>, w: nat, r: nat, c: nat)
    requires forall k :: 0 <= k < |rows| ==> |rows[k]| == w
    requires r < |rows| && c < w
    ensures UpTo(rows, w, r, c) + "?" <= "VALUES" + Tuples(rows)
    ensures Placeholders(UpTo(rows, w, r, c)) == r * w + c
  {
    EqualRows(rows, w, r);
    EqualRows(rows, w, r + 1);
    TuplesPlaceholders(rows[..r]);
    TuplesPrefix(rows, r + 1);
    BindVarsAt(w, c);
    TuplesOneMore(rows, r);
    var opening := if r == 0 then "(" else ", (";
    UpToPlaceholders(Tuples(rows[..r]), opening, BindVars(w)[..3 * c]);
    PrefixText(Tuples(rows[..r]), opening, BindVars(w), 3 * c, Tuples(rows));
  }

  /**
   * In an insert of rows of width `w`, row r and column c has placeholder number r * w + c,
   * and its value is value number r * w + c.
   */
  lemma {:induction false} PlaceholderOfRow(rows: seq<seq<Value>>, w: nat, r: nat, c: nat)
    requires forall k :: 0 <= k < |rows| ==> |rows[k]| == w
    requires r < |rows| && c < w
    ensures var p, head := Generated(Values(rows), []), UpTo(rows, w, r, c);
            && head + "?" <= p.sql && Placeholders(head) == r * w + c
            && r * w + c < |p.vars| == |rows| * w && p.vars[r * w + c] == rows[r][c]
  {
    ValueOfRow(rows, w, r, c);
    TextOfRow(rows, w, r, c);
  }

  // ---- columns of an update ----

  function SetText(order: seq<string>): string {
    Join(Assignments(order), ", ")
  }

  function Comma(k: nat): string {
    if k == 0 then "" else ", "
  }

  lemma {:induction false} SetOneMore(order: seq<string>, k: nat)
    requires k < |order|
    ensures SetText(order[..k + 1]) == SetText(order[..k]) + Comma(k) + (order[k] + " = ?")
  {
    assert order[..k + 1][..k] == order[..k];
    JoinOneMore(Assignments(order[..k]), ", ", order[k] + " = ?");
  }

  lemma {:induction false} SetPrefix(order: seq<string>, k: nat)
    requires k <= |order|
    ensures SetText(order[..k]) <= SetText(order)
    decreases |order| - k
  {
    if k == |order| {
      assert order[..k] == order;
    } else {
      SetPrefix(order, k + 1);
      SetOneMore(order, k);
    }
  }

  /** The question marks in the names themselves. */
  function NameMarks(names: seq<string>): nat {
    if names == [] then 0 else NameMarks(names[..|names| - 1]) + Placeholders(names[|names| - 1])
  }

  lemma {:induction false} NoNameMarks(names: seq<string>)
    ensures NameMarks(names) == 0 <==> forall k :: k in names ==> '?' !in k
  {
    if names != [] {
      NoNameMarks(names[..|names| - 1]);
      NoPlaceholder(names[|names| - 1]);
      LastApart(names);
    }
  }

  lemma OneColumn(done: string, comma: string, name: string)
    requires comma == "" || comma == ", "
    ensures Placeholders(done + comma + (name + " = ?")) == Placeholders(done) + Placeholders(name) + 1
    ensures Placeholders(done + comma + (name + " = ")) == Placeholders(done) + Placeholders(name)
  {
    PlaceholdersAdd(done + comma, name + " = ?");
    PlaceholdersAdd(done + comma, name + " = ");
    PlaceholdersAdd(done, comma);
    PlaceholdersAdd(name, " = ?");
    PlaceholdersAdd(name, " = ");
    NoPlaceholder(comma);
    NoPlaceholder(" = ");
    OnePlaceholder(" = ");
    assert " = " + "?" == " = ?";
  }

  lemma {:induction false} NamesOneMore(order: seq<string>, k: nat)
    requires k < |order|
    ensures NameMarks(order[..k + 1]) == NameMarks(order[..k]) + Placeholders(order[k])
  {
    assert order[..k + 1][..k] == order[..k];
  }

  lemma {:induction false} SetPlaceholders(order: seq<string>, k: nat)
    requires k <= |order|
    ensures Placeholders(SetText(order[..k])) == NameMarks(order[..k]) + k
  {
    if k == 0 {
      NoPlaceholder("");
    } else {
      var done := SetText(order[..k - 1]);
      SetPlaceholders(order, k - 1);
      NamesOneMore(order, k - 1);
      assert Placeholders(SetText(order[..k])) == Placeholders(done) + Placeholders(order[k - 1]) + 1 by {
        SetOneMore(order, k - 1);
        OneColumn(done, Comma(k - 1), order[k - 1]);
      }
    }
  }

  function UpdateHead(table: string): string {
    "UPDATE " + table + " SET "
  }

  lemma UpdateHeadPlaceholders(table: string, text: string)
    ensures Placeholders(UpdateHead(table) + text) == Placeholders(table) + Placeholders(text)
  {
    PlaceholdersAdd(UpdateHead(table), text);
    PlaceholdersAdd("UPDATE " + table, " SET ");
    PlaceholdersAdd("UPDATE ", table);
    NoPlaceholder("UPDATE ");
    NoPlaceholder(" SET ");
  }

  /** The text of an update up to the placeholder of the k-th column. */
  function UpToColumn(table: string, order: seq<string>, k: nat): string
    requires k < |order|
  {
    UpdateHead(table) + (SetText(order[..k]) + Comma(k) + (order[k] + " = "))
  }

  lemma ColumnText(head: string, done: string, name: string, all: string)
    requires done + (name + " = ?") <= all
    ensures head + (done + (name + " = ")) + "?" <= head + all
  {
    assert head + (done + (name + " = ")) + "?" == head + (done + (name + " = ?"));
  }

  lemma {:induction false} WalkLength(keys: set<string>, order: seq<string>)
    requires Walk(keys, order)
    ensures |order| == |keys|
  {
    if order == [] {
      assert keys == {};
    } else {
      var before, last := order[..|order| - 1], order[|order| - 1];
      LastApart(order);
      assert last !in before by {
        assert forall i :: 0 <= i < |before| ==> before[i] == order[i];
      }
      WalkLength(keys - {last}, before);
    }
  }

  lemma {:induction false} ColumnIsInTheText(table: string, order: seq<string>, k: nat)
    requires k < |order|
    ensures UpToColumn(table, order, k) + "?" <= UpdateHead(table) + SetText(order)
  {
    SetOneMore(order, k);
    SetPrefix(order, k + 1);
    ColumnText(UpdateHead(table), SetText(order[..k]) + Comma(k), order[k], SetText(order));
  }

  lemma {:induction false} ColumnNumber(table: string, order: seq<string>, k: nat)
    requires k < |order|
    ensures Placeholders(UpToColumn(table, order, k)) == Placeholders(table) + NameMarks(order[..k + 1]) + k
  {
    var done := SetText(order[..k]);
    SetPlaceholders(order, k);
    NamesOneMore(order, k);
    OneColumn(done, Comma(k), order[k]);
    UpdateHeadPlaceholders(table, done + Comma(k) + (order[k] + " = "));
  }

  /** In whatever order the columns come out, the k-th one has placeholder number k and binds its own value. */
  lemma {:induction false} ColumnBindsItsValue(table: string, items: map<string, Value>, order: seq<string>, k: nat)
    requires Walk(items.Keys, order) && k < |order|
    requires '?' !in table && forall name :: name in items ==> '?' !in name
    ensures var p, head := Generated(Update(table, items), order), UpToColumn(table, order, k);
            && head + "?" <= p.sql && Placeholders(head) == k
            && |p.vars| == |order| == |items| && p.vars[k] == items[order[k]]
  {
    NoPlaceholder(table);
    NoNameMarks(order[..k + 1]);
    ColumnIsInTheText(table, order, k);
    ColumnNumber(table, order, k);
    WalkLength(items.Keys, order);
  }

  // ---- every clause ----

  lemma {:induction false} JoinMarks(parts: seq<string>)
    ensures '?' in Join(parts, ",") <==> exists part :: part in parts && '?' in part
  {
    if |parts| > 1 {
      assert parts == [parts[0]] + parts[1..];
      JoinMarks(parts[1..]);
    }
  }

  lemma DecimalMarks(n: int)
    ensures '?' !in Decimal(n)
  {
    ItoaMarks(if n < 0 then -n else n);
  }

  lemma {:induction false} ItoaMarks(n: nat)
    ensures '?' !in Itoa(n)
  {
    if n >= 10 {
      ItoaMarks(n / 10);
    }
  }

  /** What a caller can look at before the call: question marks only where a value answers them. */
  ghost predicate Tidy(q: Request) {
    match q
    case Insert(table, fields) => '?' !in table && forall f :: f in fields ==> '?' !in f
    case Values(rows) => Slots(rows) == |Bound(rows)|
    case Select(table, fields) => '?' !in table && forall f :: f in fields ==> '?' !in f
    case Limit(_) => true
    case Where(desc, args) => Placeholders(desc) == |args|
    case OrderBy(desc) => '?' !in desc
    case Update(table, items) => '?' !in table && forall k :: k in items ==> '?' !in k
    case Delete(table) => '?' !in table
    case Count(table) => '?' !in table
  }

  lemma NoMarksIn(head: string, middle: string, tail: string)
    requires '?' !in head && '?' !in tail
    ensures Placeholders(head + middle + tail) == Placeholders(middle)
    ensures Placeholders(head + middle) == Placeholders(middle)
  {
    PlaceholdersAdd(head + middle, tail);
    PlaceholdersAdd(head, middle);
    NoPlaceholder(head);
    NoPlaceholder(tail);
  }

  lemma TwoNames(head: string, a: string, middle: string, b: string, tail: string)
    requires '?' !in head && '?' !in middle && '?' !in tail
    ensures Placeholders(head + a + middle + b + tail) == 0 <==> '?' !in a && '?' !in b
  {
    NoPlaceholder(head + a + middle + b + tail);
  }

  lemma InsertMarks(table: string, fields: seq<string>)
    ensures Placeholders(InsertText(table, fields)) == 0 <==> '?' !in table && forall f :: f in fields ==> '?' !in f
  {
    TwoNames("INSERT INTO ", table, " (", Join(fields, ","), ")");
    JoinMarks(fields);
  }

  lemma SelectMarks(table: string, fields: seq<string>)
    ensures Placeholders(SelectText(table, fields)) == 0 <==> '?' !in table && forall f :: f in fields ==> '?' !in f
  {
    TwoNames("SELECT ", Join(fields, ","), " FROM ", table, "");
    assert SelectText(table, fields) + "" == SelectText(table, fields);
    JoinMarks(fields);
  }

  lemma UpdateBalanced(table: string, keys: set<string>, order: seq<string>)
    requires Walk(keys, order)
    ensures Placeholders(UpdateText(table, order)) == |order| <==>
            '?' !in table && forall k :: k in keys ==> '?' !in k
  {
    UpdateHeadPlaceholders(table, SetText(order));
    SetPlaceholders(order, |order|);
    assert order[..|order|] == order;
    NoNameMarks(order);
    NoPlaceholder(table);
  }

  lemma SingleBalanced(head: string, text: string)
    requires '?' !in head
    ensures Placeholders(head + text) == 0 <==> '?' !in text
  {
    NoMarksIn(head, text, "");
    NoPlaceholder(text);
  }

  /** A clause has as many placeholders as values if and only if its request is tidy. */
  lemma {:induction false} BalancedIff(q: Request, order: seq<string>)
    requires Ordered(q, order)
    ensures Balanced(Generated(q, order)) <==> Tidy(q)
  {
    match q
    case Insert(table, fields) => InsertMarks(table, fields);
    case Values(rows) =>
      TuplesPlaceholders(rows);
      NoMarksIn("VALUES", Tuples(rows), "");
    case Select(table, fields) => SelectMarks(table, fields);
    case Limit(limit) =>
      DecimalMarks(limit);
      SingleBalanced("LIMIT ", Decimal(limit));
    case Where(desc, args) => NoMarksIn("WHERE ", desc, "");
    case OrderBy(desc) => SingleBalanced("ORDER BY ", desc);
    case Update(table, items) => UpdateBalanced(table, items.Keys, order);
    case Delete(table) => SingleBalanced("DELETE FROM ", table);
    case Count(table) => SelectMarks(table, ["COUNT(*)"]);
  }
}
