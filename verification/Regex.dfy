// grep's matcher against the language that a pattern denotes.  Strings are C strings without their NUL.
module Regex {

  // one character, with '.' for any; or any number of them
  datatype Item = One(c: char) | Star(c: char)

  // items between an optional ^ and an optional $
  datatype Pattern = Pattern(start: bool, items: seq<Item>, end: bool)

  /** A star binds to the character before it, also to a special one; $ is special at the very end only. */
  function ParseItems(re: string): (seq<Item>, bool) {
    if re == "" then ([], false)
    else if |re| >= 2 && re[1] == '*' then
      var (items, end) := ParseItems(re[2..]);
      ([Star(re[0])] + items, end)
    else if re == "$" then ([], true)
    else
      var (items, end) := ParseItems(re[1..]);
      ([One(re[0])] + items, end)
  }

  function Parse(re: string): Pattern {
    if re != "" && re[0] == '^' then
      var (items, end) := ParseItems(re[1..]);
      Pattern(true, items, end)
    else
      var (items, end) := ParseItems(re);
      Pattern(false, items, end)
  }

  predicate Accepts(c: char, x: char) {
    c == '.' || c == x
  }

  // ---------------------------------------------------------------- the language

  ghost predicate InItem(item: Item, s: string) {
    match item
    case One(c) => |s| == 1 && Accepts(c, s[0])
    case Star(c) => forall i :: 0 <= i < |s| ==> Accepts(c, s[i])
  }

  /** s is a concatenation of one string of each item. */
  ghost predicate InItems(items: seq<Item>, s: string)
    decreases |items|, 1
  {
    if items == [] then s == ""
    else exists k :: 0 <= k <= |s| && SplitsAt(items, s, k)
  }

  ghost predicate SplitsAt(items: seq<Item>, s: string, k: nat)
    requires items != [] && k <= |s|
    decreases |items|, 0
  {
    InItem(items[0], s[..k]) && InItems(items[1..], s[k..])
  }

  /** text[i..j] is matched, and sits where the anchors want it. */
  ghost predicate MatchesAt(p: Pattern, text: string, i: nat, j: nat) {
    && i <= j <= |text| && InItems(p.items, text[i..j])
    && (p.start ==> i == 0) && (p.end ==> j == |text|)
  }

  ghost predicate Matches(p: Pattern, text: string) {
    exists i: nat, j: nat :: MatchesAt(p, text, i, j)
  }

  // ---------------------------------------------------------------- matching at the beginning of text

  // the first j characters of text are matched
  ghost predicate PrefixAt(items: seq<Item>, end: bool, text: string, j: nat) {
    j <= |text| && InItems(items, text[..j]) && (end ==> j == |text|)
  }

  ghost predicate Prefix(re: string, text: string) {
    exists j: nat :: PrefixAt(ParseItems(re).0, ParseItems(re).1, text, j)
  }

  // c repeated k times, then re
  ghost predicate StarAt(c: char, re: string, text: string, k: nat) {
    k <= |text| && InItem(Star(c), text[..k]) && Prefix(re, text[k..])
  }

  lemma PrefixEmpty(text: string)
    ensures Prefix("", text)
  {
    assert ParseItems("") == ([], false);
    assert PrefixAt([], false, text, 0);
  }

  lemma PrefixEnd(text: string)
    ensures Prefix("$", text) <==> text == ""
  {
    assert ParseItems("$") == ([], true);
    if text == "" {
      assert PrefixAt([], true, text, 0);
    }
    if Prefix("$", text) {
      var j: nat :| PrefixAt([], true, text, j);
    }
  }

  // first item, then the rest
  lemma PrefixSplit(item: Item, rest: seq<Item>, end: bool, text: string, k: nat, j: nat)
    requires k <= |text| && InItem(item, text[..k]) && PrefixAt(rest, end, text[k..], j)
    ensures PrefixAt([item] + rest, end, text, k + j)
  {
    var items, s := [item] + rest, text[..k + j];
    assert items[1..] == rest && s[..k] == text[..k] && s[k..] == text[k..][..j];
    assert SplitsAt(items, s, k);
  }

  lemma PrefixJoin(item: Item, rest: seq<Item>, end: bool, text: string, j: nat) returns (k: nat)
    requires PrefixAt([item] + rest, end, text, j)
    ensures k <= j <= |text| && InItem(item, text[..k]) && PrefixAt(rest, end, text[k..], j - k)
  {
    var items, s := [item] + rest, text[..j];
    assert InItems(items, s) && items != [];
    k :| 0 <= k <= |s| && SplitsAt(items, s, k);
    assert items[1..] == rest && s[..k] == text[..k] && s[k..] == text[k..][..j - k];
  }

  lemma PrefixOne(re: string, text: string)
    requires re != "" && re != "$" && !(|re| >= 2 && re[1] == '*')
    ensures Prefix(re, text) <==> text != "" && Accepts(re[0], text[0]) && Prefix(re[1..], text[1..])
  {
    var (rest, end) := ParseItems(re[1..]);
    assert ParseItems(re) == ([One(re[0])] + rest, end);
    if text != "" && Accepts(re[0], text[0]) && Prefix(re[1..], text[1..]) {
      var j: nat :| PrefixAt(rest, end, text[1..], j);
      PrefixSplit(One(re[0]), rest, end, text, 1, j);
    }
    if Prefix(re, text) {
      var j: nat :| PrefixAt([One(re[0])] + rest, end, text, j);
      var k := PrefixJoin(One(re[0]), rest, end, text, j);
    }
  }

  lemma PrefixStar(re: string, text: string)
    requires |re| >= 2 && re[1] == '*'
    ensures Prefix(re, text) <==> exists k: nat :: StarAt(re[0], re[2..], text, k)
  {
    var (rest, end) := ParseItems(re[2..]);
    assert ParseItems(re) == ([Star(re[0])] + rest, end);
    if k: nat :| StarAt(re[0], re[2..], text, k) {
      var j: nat :| PrefixAt(rest, end, text[k..], j);
      PrefixSplit(Star(re[0]), rest, end, text, k, j);
    }
    if Prefix(re, text) {
      var j: nat :| PrefixAt([Star(re[0])] + rest, end, text, j);
      var k := PrefixJoin(Star(re[0]), rest, end, text, j);
      assert StarAt(re[0], re[2..], text, k);
    }
  }

  /** matchhere: some beginning of text is in the language of re. */
  method MatchHere(re: string, text: string) returns (b: bool)
    ensures b <==> Prefix(re, text)
    decreases |re|, 0
  {
    if re == "" {
      PrefixEmpty(text);
      return true;
    }
    if |re| >= 2 && re[1] == '*' {
      PrefixStar(re, text);
      b := MatchStar(re[0], re[2..], text);
      return;
    }
    if re == "$" {
      PrefixEnd(text);
      return text == "";
    }
    PrefixOne(re, text);
    if text != "" && (re[0] == '.' || re[0] == text[0]) {
      b := MatchHere(re[1..], text[1..]);
      return;
    }
    return false;
  }

  /** matchstar: some number of characters that c stands for, and then re. */
  method MatchStar(c: char, re: string, text: string) returns (b: bool)
    ensures b <==> exists k: nat :: StarAt(c, re, text, k)
    decreases |re|, 1
  {
    var t := 0;
    while true
      invariant t <= |text| && InItem(Star(c), text[..t])
      invariant forall k: nat :: k < t ==> !StarAt(c, re, text, k)
      decreases |text| - t
    {
      b := MatchHere(re, text[t..]);
      if b {
        assert StarAt(c, re, text, t);
        return true;
      }
      if t == |text| || !(text[t] == c || c == '.') {
        forall k: nat | t < k <= |text| ensures !StarAt(c, re, text, k) {
          assert text[..k][t] == text[t];
        }
        return false;
      }
      t := t + 1;
    }
  }

  lemma MatchesFrom(p: Pattern, text: string, i: nat)
    requires i <= |text| && (p.start ==> i == 0)
    ensures (exists j: nat :: PrefixAt(p.items, p.end, text[i..], j)) <==> exists j: nat :: MatchesAt(p, text, i, j)
  {
    if j: nat :| PrefixAt(p.items, p.end, text[i..], j) {
      assert text[i..][..j] == text[i..i + j];
      assert MatchesAt(p, text, i, i + j);
    }
    if j: nat :| MatchesAt(p, text, i, j) {
      assert text[i..][..j - i] == text[i..j];
      assert PrefixAt(p.items, p.end, text[i..], j - i);
    }
  }

  /** match: the pattern occurs in the text. */
  method Match(re: string, text: string) returns (b: bool)
    ensures b <==> Matches(Parse(re), text)
  {
    ghost var p := Parse(re);
    if re != "" && re[0] == '^' {
      b := MatchHere(re[1..], text);
      assert text[0..] == text;
      MatchesFrom(p, text, 0);
      return;
    }
    var t := 0;
    while true
      invariant t <= |text|
      invariant forall i: nat, j: nat :: i < t ==> !MatchesAt(p, text, i, j)
      decreases |text| - t
    {
      b := MatchHere(re, text[t..]);
      MatchesFrom(p, text, t);
      if b {
        return true;
      }
      if t == |text| {
        return false;
      }
      t := t + 1;
    }
  }
}
