/**
 The regular expression matcher of user/grep.c. A C string is the sequence of its characters before the terminating NUL,
 so that the code's tests for '\0' are tests for the end. The matcher is proved to accept exactly the language that
 the pattern denotes.
 */
module Grep {

  /** A pattern: a character or '.', either repeated or not, and the end of the text. */
  datatype Item = One(c: char) | Star(c: char) | End

  /** The items of a pattern, without its leading '^': a '$' is special only at the end, a '*' only after a character. */
  function Items(re: string): seq<Item> {
    if re == "" then []
    else if |re| >= 2 && re[1] == '*' then [Star(re[0])] + Items(re[2..])
    else if re == "$" then [End]
    else [One(re[0])] + Items(re[1..])
  }

  predicate FitsChar(c: char, x: char) {
    c == '.' || c == x
  }

  /** A piece of text that one item stands for. */
  predicate FitsItem(item: Item, piece: string) {
    match item
    case One(c) => |piece| == 1 && FitsChar(c, piece[0])
    case Star(c) => forall i :: 0 <= i < |piece| ==> FitsChar(c, piece[i])
    case End => piece == ""
  }

  function Flat(pieces: seq<string>): string {
    if pieces == [] then "" else pieces[0] + Flat(pieces[1..])
  }

  /** The pieces fit the items one by one and make up a prefix of the text, all of it if the pattern ends in '$'. */
  ghost predicate Splits(items: seq<Item>, pieces: seq<string>, text: string) {
    && |pieces| == |items|
    && (forall i :: 0 <= i < |items| ==> FitsItem(items[i], pieces[i]))
    && Flat(pieces) <= text
    && (items != [] && items[|items| - 1] == End ==> Flat(pieces) == text)
  }

  /** Some prefix of the text is in the language of the items. */
  ghost predicate Accepts(items: seq<Item>, text: string) {
    exists pieces :: Splits(items, pieces, text)
  }

  /** What a pattern means: a match at the start of the text after a leading '^', and anywhere otherwise. */
  ghost predicate Means(re: string, text: string) {
    if re != "" && re[0] == '^' then Accepts(Items(re[1..]), text)
    else exists i :: 0 <= i <= |text| && AcceptsAt(re, text, i)
  }

  ghost predicate AcceptsAt(re: string, text: string, i: nat)
    requires i <= |text|
  {
    Accepts(Items(re), text[i..])
  }

  // How the language unfolds along the pattern.

  lemma AcceptsNothing(text: string)
    ensures Accepts([], text)
  {
    assert Splits([], [], text);
  }

  lemma AcceptsEnd(text: string)
    ensures Accepts([End], text) <==> text == ""
  {
    if text == "" {
      assert Flat([""]) == "";
      assert Splits([End], [""], text);
    }
    forall pieces | Splits([End], pieces, text)
      ensures text == ""
    {
      assert FitsItem(End, pieces[0]);
      assert Flat(pieces) == pieces[0] + Flat(pieces[1..]);
    }
  }

  lemma SplitsTail(item: Item, items: seq<Item>, pieces: seq<string>, text: string)
    requires Splits([item] + items, pieces, text) && !item.End?
    ensures pieces[0] <= text && Splits(items, pieces[1..], text[|pieces[0]|..]) && FitsItem(item, pieces[0])
  {
    var all := [item] + items;
    assert all[0] == item && all[1..] == items;
    assert Flat(pieces) == pieces[0] + Flat(pieces[1..]);
    forall i | 0 <= i < |items|
      ensures FitsItem(items[i], pieces[1..][i])
    {
      assert FitsItem(all[i + 1], pieces[i + 1]);
    }
    assert text[|pieces[0]|..] == if Flat(pieces) == text then Flat(pieces[1..]) else text[|pieces[0]|..];
  }

  lemma SplitsCons(item: Item, piece: string, items: seq<Item>, pieces: seq<string>, rest: string)
    requires Splits(items, pieces, rest) && FitsItem(item, piece) && !item.End?
    ensures Splits([item] + items, [piece] + pieces, piece + rest)
  {
    assert ([piece] + pieces)[1..] == pieces;
    assert Flat([piece] + pieces) == piece + Flat(pieces);
  }

  lemma AcceptsOne(c: char, items: seq<Item>, text: string)
    ensures Accepts([One(c)] + items, text) <==> text != "" && FitsChar(c, text[0]) && Accepts(items, text[1..])
  {
    forall pieces | Splits([One(c)] + items, pieces, text)
      ensures text != "" && FitsChar(c, text[0]) && Accepts(items, text[1..])
    {
      SplitsTail(One(c), items, pieces, text);
      assert Splits(items, pieces[1..], text[1..]);
    }
    if text != "" && FitsChar(c, text[0]) && Accepts(items, text[1..]) {
      var pieces :| Splits(items, pieces, text[1..]);
      SplitsCons(One(c), text[..1], items, pieces, text[1..]);
      assert text[..1] + text[1..] == text;
    }
  }

  /** The first k characters fit c, and the items match after them. */
  ghost predicate AfterStar(c: char, items: seq<Item>, text: string, k: int) {
    0 <= k <= |text| && (forall i :: 0 <= i < k ==> FitsChar(c, text[i])) && Accepts(items, text[k..])
  }

  ghost predicate AcceptsAfterStar(c: char, items: seq<Item>, text: string) {
    exists k :: AfterStar(c, items, text, k)
  }

  lemma AcceptsStar(c: char, items: seq<Item>, text: string)
    ensures Accepts([Star(c)] + items, text) <==> AcceptsAfterStar(c, items, text)
  {
    forall pieces | Splits([Star(c)] + items, pieces, text)
      ensures AfterStar(c, items, text, |pieces[0]|)
    {
      SplitsTail(Star(c), items, pieces, text);
      assert forall i :: 0 <= i < |pieces[0]| ==> text[i] == pieces[0][i];
    }
    forall k | AfterStar(c, items, text, k)
      ensures Accepts([Star(c)] + items, text)
    {
      var pieces :| Splits(items, pieces, text[k..]);
      SplitsCons(Star(c), text[..k], items, pieces, text[k..]);
      assert text[..k] + text[k..] == text;
    }
  }

  // The code.

  /** match. */
  method Match(re: string, text: string) returns (r: bool)
    ensures r <==> Means(re, text)
  {
    if re != "" && re[0] == '^' {
      r := MatchHere(re[1..], text);
      return;
    }
    var t := 0;
    while true
      invariant 0 <= t <= |text|
      invariant forall i :: 0 <= i < t ==> !AcceptsAt(re, text, i)
      decreases |text| - t
    {
      var here := MatchHere(re, text[t..]);
      if here {
        assert AcceptsAt(re, text, t);
        return true;
      }
      if t == |text| {
        break;
      }
      t := t + 1;
    }
    return false;
  }

  /** matchhere. */
  method MatchHere(re: string, text: string) returns (r: bool)
    ensures r <==> Accepts(Items(re), text)
    decreases |re|, 0
  {
    hide Accepts;
    if re == "" {
      AcceptsNothing(text);
      return true;
    }
    if |re| >= 2 && re[1] == '*' {
      AcceptsStar(re[0], Items(re[2..]), text);
      r := MatchStar(re[0], re[2..], text);
      return;
    }
    if re[0] == '$' && |re| == 1 {
      assert re == "$" && Items(re) == [End];
      AcceptsEnd(text);
      return text == "";
    }
    AcceptsOne(re[0], Items(re[1..]), text);
    if text != "" && (re[0] == '.' || re[0] == text[0]) {
      r := MatchHere(re[1..], text[1..]);
      return;
    }
    return false;
  }

  /** matchstar. */
  method MatchStar(c: char, re: string, text: string) returns (r: bool)
    ensures r <==> AcceptsAfterStar(c, Items(re), text)
    decreases |re|, 1
  {
    hide Accepts;
    var t := 0;
    while true
      invariant 0 <= t <= |text|
      invariant forall i :: 0 <= i < t ==> FitsChar(c, text[i])
      invariant forall k :: 0 <= k < t ==> !AfterStar(c, Items(re), text, k)
      decreases |text| - t
    {
      var here := MatchHere(re, text[t..]);
      if here {
        assert AfterStar(c, Items(re), text, t);
        return true;
      }
      if t == |text| || !(text[t] == c || c == '.') {
        break;
      }
      t := t + 1;
    }
    assert forall k :: AfterStar(c, Items(re), text, k) ==> k <= t;
    return false;
  }
}
