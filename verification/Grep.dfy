/** The pattern matcher of user/grep.c against the language its patterns denote.  A C
    string is the sequence of its characters before the NUL. */
module Grep {

  // ---------------------------------------------------------------- the language

  datatype Atom = Any | Lit(c: char)

  /** End is a dollar at the end of the pattern. */
  datatype Item = One(a: Atom) | Many(a: Atom) | End

  function AtomOf(c: char): Atom {
    if c == '.' then Any else Lit(c)
  }

  predicate Fits(a: Atom, c: char) {
    a.Any? || a.c == c
  }

  predicate AllFit(a: Atom, w: string) {
    forall k :: 0 <= k < |w| ==> Fits(a, w[k])
  }

  /** The items of a pattern.  A star stands for itself where no character is before it,
      and a starred dollar is an ordinary character. */
  function Items(re: string): seq<Item> {
    if re == "" then []
    else if |re| > 1 && re[1] == '*' then [Many(AtomOf(re[0]))] + Items(re[2..])
    else if re == "$" then [End]
    else [One(AtomOf(re[0]))] + Items(re[1..])
  }

  /** The strings an item stands for. */
  predicate Stands(item: Item, w: string) {
    match item
    case One(a) => |w| == 1 && Fits(a, w[0])
    case Many(a) => AllFit(a, w)
    case End => w == ""
  }

  function Joined(ws: seq<string>): string {
    if ws == [] then "" else ws[0] + Joined(ws[1..])
  }

  /** w is made of one part for each item, in order. */
  ghost predicate MadeOf(items: seq<Item>, ws: seq<string>, w: string) {
    && |ws| == |items| && Joined(ws) == w
    && forall k :: 0 <= k < |items| ==> Stands(items[k], ws[k])
  }

  ghost predicate InLanguage(items: seq<Item>, w: string) {
    exists ws :: MadeOf(items, ws, w)
  }

  /** The part of text from i to j is in the language, and reaches the end of the text
      where the pattern says so. */
  ghost predicate MatchedAt(items: seq<Item>, text: string, i: nat, j: nat) {
    && i <= j <= |text| && InLanguage(items, text[i..j])
    && (End in items ==> j == |text|)
  }

  ghost predicate MatchedFrom(items: seq<Item>, text: string, i: nat) {
    exists j: nat :: MatchedAt(items, text, i, j)
  }

  predicate StartAnchored(re: string) {
    re != "" && re[0] == '^'
  }

  /** What grep promises: some part of the line is in the language, at the start or the
      end of the line where the pattern asks for it. */
  ghost predicate Matches(re: string, text: string) {
    if StartAnchored(re) then MatchedFrom(Items(re[1..]), text, 0)
    else exists i: nat :: i <= |text| && MatchedFrom(Items(re), text, i)
  }

  // ---------------------------------------------------------------- the language, item by item

  /** The parts of an item list: the first item's part, and the rest. */
  lemma Split(items: seq<Item>, ws: seq<string>, w: string)
    requires items != [] && MadeOf(items, ws, w)
    ensures ws != [] && |ws[0]| <= |w| && Stands(items[0], ws[0]) && w[..|ws[0]|] == ws[0] && InLanguage(items[1..], w[|ws[0]|..])
  {
    assert w == ws[0] + Joined(ws[1..]);
    assert w[|ws[0]|..] == Joined(ws[1..]);
    assert MadeOf(items[1..], ws[1..], w[|ws[0]|..]);
  }

  lemma Join(items: seq<Item>, u: string, w: string)
    requires items != [] && Stands(items[0], u) && InLanguage(items[1..], w)
    ensures InLanguage(items, u + w)
  {
    var ws :| MadeOf(items[1..], ws, w);
    assert ([u] + ws)[1..] == ws;
    assert MadeOf(items, [u] + ws, u + w);
  }

  /** Whether a dollar ends the pattern does not depend on the other items. */
  lemma EndIn(items: seq<Item>)
    requires items != [] && !items[0].End?
    ensures End in items <==> End in items[1..]
  {
    assert items == [items[0]] + items[1..];
  }

  lemma FirstSplit(items: seq<Item>, text: string, i: nat) returns (n: nat)
    requires items != [] && !items[0].End? && MatchedFrom(items, text, i)
    ensures i + n <= |text| && Stands(items[0], text[i..i + n]) && MatchedFrom(items[1..], text, i + n)
  {
    var j: nat :| MatchedAt(items, text, i, j);
    var ws :| MadeOf(items, ws, text[i..j]);
    Split(items, ws, text[i..j]);
    n := |ws[0]|;
    assert text[i..j][..n] == text[i..i + n] && text[i..j][n..] == text[i + n..j];
    EndIn(items);
    assert MatchedAt(items[1..], text, i + n, j);
  }

  lemma FirstJoin(items: seq<Item>, text: string, i: nat, n: nat)
    requires items != [] && !items[0].End? && i + n <= |text| && Stands(items[0], text[i..i + n]) && MatchedFrom(items[1..], text, i + n)
    ensures MatchedFrom(items, text, i)
  {
    var j: nat :| MatchedAt(items[1..], text, i + n, j);
    Join(items, text[i..i + n], text[i + n..j]);
    assert text[i..i + n] + text[i + n..j] == text[i..j];
    EndIn(items);
    assert MatchedAt(items, text, i, j);
  }

  lemma NoItems(text: string, i: nat)
    requires i <= |text|
    ensures MatchedFrom([], text, i)
  {
    assert MadeOf([], [], text[i..i]);
    assert MatchedAt([], text, i, i);
  }

  lemma OnlyEnd(text: string, i: nat)
    requires i <= |text|
    ensures MatchedFrom([End], text, i) <==> i == |text|
  {
    if MatchedFrom([End], text, i) {
      var j: nat :| MatchedAt([End], text, i, j);
      var ws :| MadeOf([End], ws, text[i..j]);
      assert ws == [ws[0]] && Joined(ws) == ws[0] + Joined([]);
    }
    if i == |text| {
      assert Joined([""]) == "" + Joined([]);
      assert MadeOf([End], [""], text[i..i]);
      assert MatchedAt([End], text, i, i);
    }
  }

  /** A plain character or dot takes exactly one character. */
  lemma OneStep(a: Atom, rest: seq<Item>, text: string, i: nat)
    requires i <= |text|
    ensures MatchedFrom([One(a)] + rest, text, i) <==> i < |text| && Fits(a, text[i]) && MatchedFrom(rest, text, i + 1)
  {
    var items := [One(a)] + rest;
    assert items[1..] == rest;
    if MatchedFrom(items, text, i) {
      var n := FirstSplit(items, text, i);
    }
    if i < |text| && Fits(a, text[i]) && MatchedFrom(rest, text, i + 1) {
      FirstJoin(items, text, i, 1);
    }
  }

  /** A starred item takes any run of characters that fit. */
  lemma ManyStep(a: Atom, rest: seq<Item>, text: string, i: nat)
    requires i <= |text|
    ensures MatchedFrom([Many(a)] + rest, text, i) <==> exists n: nat :: TakesRun(a, rest, text, i, n)
  {
    var items := [Many(a)] + rest;
    assert items[1..] == rest;
    if MatchedFrom(items, text, i) {
      var n := FirstSplit(items, text, i);
      assert TakesRun(a, rest, text, i, n);
    }
    if exists n: nat :: TakesRun(a, rest, text, i, n) {
      var n: nat :| TakesRun(a, rest, text, i, n);
      FirstJoin(items, text, i, n);
    }
  }

  ghost predicate TakesRun(a: Atom, rest: seq<Item>, text: string, i: nat, n: nat) {
    i + n <= |text| && AllFit(a, text[i..i + n]) && MatchedFrom(rest, text, i + n)
  }

  /** No run gets past a character that does not fit. */
  lemma NoRun(a: Atom, rest: seq<Item>, text: string, i: nat, k: nat)
    requires i <= k <= |text| && (k < |text| ==> !Fits(a, text[k])) && forall m :: i <= m <= k ==> !MatchedFrom(rest, text, m)
    ensures forall n: nat :: !TakesRun(a, rest, text, i, n)
  {
    hide MatchedFrom;
    forall n: nat ensures !TakesRun(a, rest, text, i, n) {
      if k < i + n <= |text| {
        assert text[i..i + n][k - i] == text[k];
      }
    }
  }

  lemma NoneYet(a: Atom, text: string, i: nat)
    requires i <= |text|
    ensures AllFit(a, text[i..i])
  {
  }

  lemma LongerRun(a: Atom, text: string, i: nat, k: nat)
    requires i <= k < |text| && AllFit(a, text[i..k]) && Fits(a, text[k])
    ensures AllFit(a, text[i..k + 1])
  {
    assert text[i..k + 1] == text[i..k] + [text[k]];
  }

  // ---------------------------------------------------------------- the matcher

  /** match: sound and complete for every pattern and text. */
  method Match(re: string, text: string) returns (found: bool)
    ensures found <==> Matches(re, text)
  {
    if re != "" && re[0] == '^' {
      found := MatchHere(re[1..], text, 0);
      return;
    }
    var i := 0;
    while true
      invariant i <= |text| && forall k :: 0 <= k < i ==> !MatchedFrom(Items(re), text, k)
      decreases |text| - i
    {
      var here := MatchHere(re, text, i);
      if here {
        return true;
      }
      if i == |text| {
        return false;
      }
      i := i + 1;
    }
  }

  /** matchhere: the pattern matches the text from i on. */
  method MatchHere(re: string, text: string, i: nat) returns (found: bool)
    requires i <= |text|
    ensures found <==> MatchedFrom(Items(re), text, i)
    decreases |re|, |text| - i
  {
    if re == "" {
      NoItems(text, i);
      return true;
    }
    if |re| > 1 && re[1] == '*' {
      ManyStep(AtomOf(re[0]), Items(re[2..]), text, i);
      assert Items(re) == [Many(AtomOf(re[0]))] + Items(re[2..]);
      found := MatchStar(re[0], re[2..], text, i);
      return;
    }
    if re[0] == '$' && |re| == 1 {
      assert re == "$";
      OnlyEnd(text, i);
      return i == |text|;
    }
    OneStep(AtomOf(re[0]), Items(re[1..]), text, i);
    if i < |text| && (re[0] == '.' || re[0] == text[i]) {
      found := MatchHere(re[1..], text, i + 1);
      return;
    }
    return false;
  }

  /** matchstar: some run of characters c, then the rest of the pattern. */
  method MatchStar(c: char, re: string, text: string, i: nat) returns (found: bool)
    requires i <= |text|
    ensures found <==> exists n: nat :: TakesRun(AtomOf(c), Items(re), text, i, n)
    decreases |re| + 1, 0
  {
    hide Items, MatchedFrom, AllFit;
    NoneYet(AtomOf(c), text, i);
    var k := i;
    while true
      invariant i <= k <= |text| && AllFit(AtomOf(c), text[i..k])
      invariant forall m :: i <= m < k ==> !MatchedFrom(Items(re), text, m)
      decreases |text| - k
    {
      var here := MatchHere(re, text, k);
      if here {
        assert TakesRun(AtomOf(c), Items(re), text, i, k - i);
        return true;
      }
      if !(k < |text| && (text[k] == c || c == '.')) {
        NoRun(AtomOf(c), Items(re), text, i, k);
        return false;
      }
      LongerRun(AtomOf(c), text, i, k);
      k := k + 1;
    }
  }
}
