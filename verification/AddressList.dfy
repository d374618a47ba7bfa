/** The comma-joined list of addresses in which the registry answers. */
module AddressList {
  import opened Basics
  import Text

  predicate IsSpace(c: char) {
    var n := c as int;
    9 <= n <= 13 || n == 32 || n == 0x85 || n == 0xA0 || n == 0x1680 || 0x2000 <= n <= 0x200A ||
    n == 0x2028 || n == 0x2029 || n == 0x202F || n == 0x205F || n == 0x3000
  }

  function TrimLeft(s: string): string {
    if s == [] || !IsSpace(s[0]) then s else TrimLeft(s[1..])
  }

  function TrimRight(s: string): string {
    if s == [] || !IsSpace(s[|s| - 1]) then s else TrimRight(s[..|s| - 1])
  }

  function TrimSpace(s: string): string {
    TrimRight(TrimLeft(s))
  }

  lemma {:induction false} TrimLeftTrims(s: string)
    ensures var r := TrimLeft(s);
            (r == [] || !IsSpace(r[0])) && |r| <= |s| && r == s[|s| - |r|..] &&
            forall i :: 0 <= i < |s| - |r| ==> IsSpace(s[i])
  {
    if s != [] && IsSpace(s[0]) {
      TrimLeftTrims(s[1..]);
    }
  }

  lemma {:induction false} TrimRightTrims(s: string)
    ensures var r := TrimRight(s);
            (r == [] || !IsSpace(r[|r| - 1])) && |r| <= |s| && r == s[..|r|] &&
            forall i :: |r| <= i < |s| ==> IsSpace(s[i])
  {
    if s != [] && IsSpace(s[|s| - 1]) {
      TrimRightTrims(s[..|s| - 1]);
    }
  }

  /** What is left is a stretch of the text, with only spaces around it and none at its ends. */
  lemma TrimSpaceTrims(s: string) returns (from: nat)
    ensures var r := TrimSpace(s);
            from + |r| <= |s| && r == s[from..from + |r|] &&
            (forall i :: 0 <= i < from || from + |r| <= i < |s| ==> IsSpace(s[i])) &&
            (r != [] ==> !IsSpace(r[0]) && !IsSpace(r[|r| - 1]))
  {
    TrimLeftTrims(s);
    TrimRightTrims(TrimLeft(s));
    from := |s| - |TrimLeft(s)|;
  }

  lemma TrimsOnce(s: string)
    ensures TrimSpace(TrimSpace(s)) == TrimSpace(s)
    ensures forall c :: c in TrimSpace(s) ==> c in s
  {
    var from := TrimSpaceTrims(s);
  }

  /** At every comma; the empty text has one piece. */
  function Split(s: string): (pieces: seq<string>)
    ensures |pieces| >= 1
  {
    if s == [] then [""]
    else
      var rest := Split(s[1..]);
      if s[0] == ',' then [""] + rest else [[s[0]] + rest[0]] + rest[1..]
  }

  lemma {:induction false} PiecesHoldNoComma(s: string)
    ensures forall p :: p in Split(s) ==> ',' !in p
  {
    if s != [] {
      PiecesHoldNoComma(s[1..]);
    }
  }

  function Join(pieces: seq<string>): string {
    Text.Join(pieces, ",")
  }

  /** Splitting loses nothing. */
  lemma {:induction false} JoinSplit(s: string)
    ensures Join(Split(s)) == s
  {
    if s != [] {
      JoinSplit(s[1..]);
      var rest := Split(s[1..]);
      assert s == [s[0]] + s[1..];
      if s[0] == ',' {
        JoinBlank(rest);
      } else {
        JoinLonger(s[0], rest);
      }
    }
  }

  lemma {:induction false} JoinBlank(pieces: seq<string>)
    requires pieces != []
    ensures Join([""] + pieces) == "," + Join(pieces)
  {
    assert ([""] + pieces)[1..] == pieces;
  }

  lemma {:induction false} JoinLonger(c: char, pieces: seq<string>)
    requires pieces != []
    ensures Join([[c] + pieces[0]] + pieces[1..]) == [c] + Join(pieces)
  {
    var longer := [[c] + pieces[0]] + pieces[1..];
    assert longer[1..] == pieces[1..];
  }

  lemma {:induction false} SplitAfter(p: string, s: string)
    requires ',' !in p
    ensures Split(p + s) == [p + Split(s)[0]] + Split(s)[1..]
  {
    if p == [] {
      assert p + s == s;
      assert p + Split(s)[0] == Split(s)[0];
    } else {
      assert (p + s)[1..] == p[1..] + s;
      SplitAfter(p[1..], s);
      assert [p[0]] + (p[1..] + Split(s)[0]) == p + Split(s)[0];
    }
  }

  /** Joining is undone when there is a piece and no piece holds a comma. */
  lemma {:induction false} SplitJoin(pieces: seq<string>)
    ensures Split(Join(pieces)) == pieces <==> pieces != [] && forall p :: p in pieces ==> ',' !in p
  {
    PiecesHoldNoComma(Join(pieces));
    if pieces != [] && forall p :: p in pieces ==> ',' !in p {
      SplitJoinCommaFree(pieces);
    }
  }

  lemma {:induction false} SplitJoinCommaFree(pieces: seq<string>)
    requires pieces != [] && forall p :: p in pieces ==> ',' !in p
    ensures Split(Join(pieces)) == pieces
  {
    assert pieces == [pieces[0]] + pieces[1..];
    if |pieces| == 1 {
      assert pieces[0] == pieces[0] + "";
      SplitAfter(pieces[0], "");
    } else {
      SplitJoinCommaFree(pieces[1..]);
      var tail := "," + Join(pieces[1..]);
      assert tail[1..] == Join(pieces[1..]);
      assert pieces[0] + "," + Join(pieces[1..]) == pieces[0] + tail;
      SplitAfter(pieces[0], tail);
      assert Split(tail) == [""] + pieces[1..];
      assert pieces[0] + "" == pieces[0] && ([""] + pieces[1..])[1..] == pieces[1..];
    }
  }

  /** The pieces that are not blank, trimmed. */
  function Trimmed(pieces: seq<string>): seq<string> {
    if pieces == [] then []
    else
      var last := TrimSpace(pieces[|pieces| - 1]);
      Trimmed(pieces[..|pieces| - 1]) + if last == "" then [] else [last]
  }

  /** An address that travels unharmed. */
  predicate Clean(a: string) {
    a != "" && TrimSpace(a) == a && ',' !in a
  }

  function Decoded(text: string): seq<string> {
    Trimmed(Split(text))
  }

  lemma {:induction false} TrimmedAreClean(pieces: seq<string>)
    requires forall p :: p in pieces ==> ',' !in p
    ensures forall a :: a in Trimmed(pieces) ==> Clean(a)
    ensures |Trimmed(pieces)| <= |pieces|
  {
    if pieces != [] {
      TrimmedAreClean(pieces[..|pieces| - 1]);
      TrimsOnce(pieces[|pieces| - 1]);
    }
  }

  lemma {:induction false} TrimmedKeeps(pieces: seq<string>)
    requires forall p :: p in pieces ==> Clean(p)
    ensures Trimmed(pieces) == pieces
  {
    if pieces != [] {
      var before, last := pieces[..|pieces| - 1], pieces[|pieces| - 1];
      assert last in pieces && Clean(last);
      LastApart(pieces);
      TrimmedKeeps(before);
      assert Trimmed(pieces) == Trimmed(before) + [last];
    }
  }

  /**
   * The client reads back exactly the registry's addresses if and only if each of them is
   * not empty, holds no comma and neither begins nor ends with a space.
   */
  lemma {:induction false} DecodedIff(addrs: seq<string>)
    ensures Decoded(Join(addrs)) == addrs <==> forall a :: a in addrs ==> Clean(a)
  {
    PiecesHoldNoComma(Join(addrs));
    TrimmedAreClean(Split(Join(addrs)));
    if forall a :: a in addrs ==> Clean(a) {
      if addrs == [] {
        assert Split("") == [""];
        assert Trimmed([""]) == [];
      } else {
        SplitJoinCommaFree(addrs);
        TrimmedKeeps(addrs);
      }
    }
  }

  predicate AllSpace(s: string) {
    forall i :: 0 <= i < |s| ==> IsSpace(s[i])
  }

  /** `piece` is `a` with nothing but spaces before and behind it. */
  ghost predicate Pads(piece: string, a: string) {
    exists before, behind :: AllSpace(before) && AllSpace(behind) && piece == before + a + behind
  }

  lemma {:induction false} TrimLeftPadded(before: string, s: string)
    requires AllSpace(before) && (s == [] || !IsSpace(s[0]))
    ensures TrimLeft(before + s) == s
  {
    if before == [] {
      assert before + s == s;
    } else {
      assert (before + s)[1..] == before[1..] + s;
      TrimLeftPadded(before[1..], s);
    }
  }

  lemma {:induction false} TrimRightPadded(s: string, behind: string)
    requires AllSpace(behind) && (s == [] || !IsSpace(s[|s| - 1]))
    ensures TrimRight(s + behind) == s
  {
    if behind == [] {
      assert s + behind == s;
    } else {
      var n := |behind| - 1;
      assert (s + behind)[..|s| + n] == s + behind[..n];
      TrimRightPadded(s, behind[..n]);
    }
  }

  /** Trimming takes off all the spaces that were put around an address, and leaves nothing of spaces. */
  lemma {:induction false} TrimPadded(piece: string, a: string)
    requires Pads(piece, a) && TrimSpace(a) == a
    ensures TrimSpace(piece) == a
  {
    var before, behind :| AllSpace(before) && AllSpace(behind) && piece == before + a + behind;
    var from := TrimSpaceTrims(a);
    if a == [] {
      assert piece == (before + behind) + [];
      TrimLeftPadded(before + behind, []);
    } else {
      assert piece == before + (a + behind);
      TrimLeftPadded(before, a + behind);
      TrimRightPadded(a, behind);
    }
  }

  /** The addresses among `pieces`, some of which may be blank. */
  function NotBlank(addrs: seq<string>): seq<string> {
    if addrs == [] then []
    else
      var last := addrs[|addrs| - 1];
      NotBlank(addrs[..|addrs| - 1]) + if last == "" then [] else [last]
  }

  lemma {:induction false} TrimmedPadded(pieces: seq<string>, addrs: seq<string>)
    requires |pieces| == |addrs|
    requires forall i :: 0 <= i < |addrs| ==> Pads(pieces[i], addrs[i]) && TrimSpace(addrs[i]) == addrs[i]
    ensures Trimmed(pieces) == NotBlank(addrs)
  {
    if pieces != [] {
      var n := |pieces| - 1;
      TrimmedPadded(pieces[..n], addrs[..n]);
      TrimPadded(pieces[n], addrs[n]);
    }
  }

  /** An answer with spaces around its addresses and with blank pieces reads as the addresses in it. */
  lemma {:induction false} DecodedPadded(pieces: seq<string>, addrs: seq<string>)
    requires pieces != [] && |pieces| == |addrs|
    requires forall p :: p in pieces ==> ',' !in p
    requires forall i :: 0 <= i < |addrs| ==> Pads(pieces[i], addrs[i]) && TrimSpace(addrs[i]) == addrs[i]
    ensures Decoded(Join(pieces)) == NotBlank(addrs)
  {
    SplitJoinCommaFree(pieces);
    TrimmedPadded(pieces, addrs);
  }
}
