/** The regular-expression matcher of user/grep.c against a declarative meaning of patterns.
    Strings are C strings without the terminating NUL. */
module Grep {

  type cstring = s: string | '\0' !in s witness ""

  // ---------- what a pattern means ----------

  datatype Item = One(c: char) | Star(c: char) | End

  /** A pattern is a sequence of items. A character before `*` is a star even if it is `$`;
      `$` is the end of the text only as the last character. */
  function Items(re: string): seq<Item> {
    if re == "" then []
    else if |re| > 1 && re[1] == '*' then [Star(re[0])] + Items(re[2..])
    else if re == "$" then [End]
    else [One(re[0])] + Items(re[1..])
  }

  predicate Accepts(c: char, d: char) {
    c == '.' || c == d
  }

  predicate AllAccepted(c: char, w: string) {
    forall i :: 0 <= i < |w| ==> Accepts(c, w[i])
  }

  /** The strings an item stands for. */
  predicate Stands(x: Item, w: string) {
    match x
    case One(c) => |w| == 1 && Accepts(c, w[0])
    case Star(c) => AllAccepted(c, w)
    case End => w == ""
  }

  /** `w` is a concatenation of strings the items stand for. */
  ghost predicate Spells(items: seq<Item>, w: string) {
    if items == [] then w == ""
    else exists i :: 0 <= i <= |w| && Stands(items[0], w[..i]) && Spells(items[1..], w[i..])
  }

  /** The pattern matches a prefix of the text, all of it if the pattern ends in `$`. */
  ghost predicate Begins(re: string, text: string) {
    exists k :: 0 <= k <= |text| && Spells(Items(re), text[..k]) && (End in Items(re) ==> k == |text|)
  }

  ghost predicate Found(re: string, text: string) {
    if re != "" && re[0] == '^' then Begins(re[1..], text)
    else exists i :: 0 <= i <= |text| && Begins(re, text[i..])
  }

  // ---------- how the meaning unfolds ----------

  lemma BeginsEmpty(text: string)
    ensures Begins("", text)
  {
    assert Spells(Items(""), text[..0]);
  }

  lemma BeginsEnd(text: string)
    ensures Begins("$", text) <==> text == ""
  {
    assert Items("$") == [End] && [End][1..] == [];
    if text == "" {
      assert Stands(End, text[..0]) && Spells([], text[0..]);
      assert Spells([End], text[..0]);
    }
    if Begins("$", text) {
      assert text[..|text|] == text && Spells([End], text);
      var i :| 0 <= i <= |text| && Stands(End, text[..i]) && Spells([], text[i..]);
      assert text == text[..i] + text[i..];
    }
  }

  lemma BeginsSplit(x: Item, rest: string, re: string, text: string) returns (i: nat)
    requires Items(re) == [x] + Items(rest) && !x.End? && Begins(re, text)
    ensures i <= |text| && Stands(x, text[..i]) && Begins(rest, text[i..])
  {
    assert End in Items(re) <==> End in Items(rest);
    assert Items(re)[1..] == Items(rest);
    var k :| 0 <= k <= |text| && Spells(Items(re), text[..k]) && (End in Items(re) ==> k == |text|);
    var w := text[..k];
    i :| 0 <= i <= |w| && Stands(x, w[..i]) && Spells(Items(rest), w[i..]);
    hide Spells, Stands;
    assert w[..i] == text[..i] && w[i..] == text[i..][..k - i];
  }

  lemma BeginsJoin(x: Item, rest: string, re: string, text: string, i: nat)
    requires Items(re) == [x] + Items(rest) && !x.End?
    requires i <= |text| && Stands(x, text[..i]) && Begins(rest, text[i..])
    ensures Begins(re, text)
  {
    assert End in Items(re) <==> End in Items(rest);
    assert Items(re)[1..] == Items(rest);
    var k :| 0 <= k <= |text[i..]| && Spells(Items(rest), text[i..][..k]) && (End in Items(rest) ==> k == |text[i..]|);
    var w := text[..i + k];
    assert w[..i] == text[..i] && w[i..] == text[i..][..k];
    assert Spells(Items(re), w);
  }

  /** One item consumed: the rest of the pattern begins the rest of the text. */
  lemma BeginsCons(x: Item, rest: string, re: string, text: string)
    requires Items(re) == [x] + Items(rest) && !x.End?
    ensures Begins(re, text) <==> exists i :: 0 <= i <= |text| && Stands(x, text[..i]) && Begins(rest, text[i..])
  {
    hide Begins, Stands;
    if Begins(re, text) {
      var i := BeginsSplit(x, rest, re, text);
    }
    if i :| 0 <= i <= |text| && Stands(x, text[..i]) && Begins(rest, text[i..]) {
      BeginsJoin(x, rest, re, text, i);
    }
  }

  // ---------- the matcher ----------

  method MatchHere(re: cstring, text: cstring) returns (b: bool)
    ensures b <==> Begins(re, text)
    decreases |re|, 0
  {
    if |re| == 0 {
      BeginsEmpty(text);
      return true;
    }
    if |re| > 1 && re[1] == '*' {
      b := MatchStar(re[0], re[2..], text);
      BeginsCons(Star(re[0]), re[2..], re, text);
      return;
    }
    if re[0] == '$' && |re| == 1 {
      BeginsEnd(text);
      return text == "";
    }
    BeginsCons(One(re[0]), re[1..], re, text);
    if text != "" && (re[0] == '.' || re[0] == text[0]) {
      assert Stands(One(re[0]), text[..1]);
      b := MatchHere(re[1..], text[1..]);
      return;
    }
    return false;
  }

  method MatchStar(c: char, re: cstring, text: cstring) returns (b: bool)
    ensures b <==> exists i :: 0 <= i <= |text| && Stands(Star(c), text[..i]) && Begins(re, text[i..])
    decreases |re|, 1
  {
    var t := 0;
    while true
      invariant t <= |text| && AllAccepted(c, text[..t])
      invariant forall i :: 0 <= i < t ==> !Begins(re, text[i..])
      decreases |text| - t
    {
      b := MatchHere(re, text[t..]);
      if b {
        assert Stands(Star(c), text[..t]);
        return;
      }
      if t == |text| || !(text[t] == c || c == '.') {
        forall i | t < i <= |text| ensures !Stands(Star(c), text[..i]) {
          assert text[..i][t] == text[t];
        }
        return;
      }
      t := t + 1;
    }
  }

  /** `match` succeeds exactly when the text has a place where the pattern matches. */
  method Match(re: cstring, text: cstring) returns (b: bool)
    ensures b <==> Found(re, text)
  {
    if re != "" && re[0] == '^' {
      b := MatchHere(re[1..], text);
      return;
    }
    var t := 0;
    while true
      invariant t <= |text| && forall i :: 0 <= i < t ==> !Begins(re, text[i..])
      decreases |text| - t
    {
      b := MatchHere(re, text[t..]);
      if b || t == |text| {
        return;
      }
      t := t + 1;
    }
  }
}
