/**
The regular-expression matcher of src/grep.c: match, matchhere and matchstar, against the language
that a pattern denotes.
*/
module Grep {
  // ---------- what a pattern denotes ----------

  /** One character, or any number of copies of it. */
  datatype Item = One(c: char) | Star(c: char)

  predicate Hit(c: char, x: char) {
    c == '.' || c == x
  }

  /** The items of a pattern without its leading ^ and its closing $. */
  function Items(re: string): seq<Item> {
    if re == [] || re == ['$'] then []
    else if |re| > 1 && re[1] == '*' then [Star(re[0])] + Items(re[2..])
    else [One(re[0])] + Items(re[1..])
  }

  /** A $ that stands alone at the end ties the match to the end of the text. */
  predicate AtEnd(re: string) {
    if re == [] then false
    else if re == ['$'] then true
    else if |re| > 1 && re[1] == '*' then AtEnd(re[2..])
    else AtEnd(re[1..])
  }

  ghost predicate AllHit(c: char, w: string) {
    forall i :: 0 <= i < |w| ==> Hit(c, w[i])
  }

  /** w is in the language of the items. */
  ghost predicate InLang(items: seq<Item>, w: string)
    decreases |items|
  {
    if items == [] then w == []
    else match items[0]
      case One(c) => w != [] && Hit(c, w[0]) && InLang(items[1..], w[1..])
      case Star(c) => exists n :: 0 <= n <= |w| && AllHit(c, w[..n]) && InLang(items[1..], w[n..])
  }

  /** A prefix of text is in the language, all of it if the pattern is tied to the end. */
  ghost predicate Here(re: string, text: string) {
    exists k :: 0 <= k <= |text| && (AtEnd(re) ==> k == |text|) && InLang(Items(re), text[..k])
  }

  /** A substring of text is in the language, as ^ and $ require. */
  ghost predicate Found(re: string, text: string) {
    if re != [] && re[0] == '^' then Here(re[1..], text)
    else exists j :: 0 <= j <= |text| && Here(re, text[j..])
  }

  // ---------- the matcher ----------

  method Match(re: string, text: string) returns (r: bool)
    ensures r <==> Found(re, text)
  {
    if re != [] && re[0] == '^' {
      r := MatchHere(re[1..], text);
      return;
    }
    var t := 0;
    while true
      invariant 0 <= t <= |text| && forall j :: 0 <= j < t ==> !Here(re, text[j..])
      decreases |text| - t
    {
      r := MatchHere(re, text[t..]);
      if r {
        return true;
      }
      if t == |text| {
        return false;
      }
      t := t + 1;
    }
  }

  method MatchHere(re: string, text: string) returns (r: bool)
    ensures r <==> Here(re, text)
    decreases |re|, 0
  {
    if re == [] {
      EmptyHere(text);
      return true;
    }
    if |re| > 1 && re[1] == '*' {
      r := MatchStar(re[0], re[2..], text);
      StarHere(re, text);
      return;
    }
    if re[0] == '$' && |re| == 1 {
      DollarHere(text);
      return text == [];
    }
    OneHere(re, text);
    if text != [] && (re[0] == '.' || re[0] == text[0]) {
      r := MatchHere(re[1..], text[1..]);
      return;
    }
    return false;
  }

  /** matchstar: c*re at the beginning of text. */
  method MatchStar(c: char, re: string, text: string) returns (r: bool)
    ensures r <==> exists n :: 0 <= n <= |text| && AllHit(c, text[..n]) && Here(re, text[n..])
    decreases |re|, 1
  {
    var t := 0;
    while true
      invariant 0 <= t <= |text| && AllHit(c, text[..t])
      invariant forall n :: 0 <= n < t ==> !Here(re, text[n..])
      decreases |text| - t
    {
      r := MatchHere(re, text[t..]);
      if r {
        return true;
      }
      if t == |text| {
        return false;
      }
      t := t + 1;
      if !(text[t - 1] == c || c == '.') {
        NoMore(c, text, t - 1);
        return false;
      }
      assert text[..t] == text[..t - 1] + [text[t - 1]];
    }
  }

  lemma NoMore(c: char, text: string, t: nat)
    requires t < |text| && !Hit(c, text[t])
    ensures forall n :: t < n <= |text| ==> !AllHit(c, text[..n])
  {
    forall n | t < n <= |text| ensures !AllHit(c, text[..n]) {
      assert text[..n][t] == text[t];
    }
  }

  lemma EmptyHere(text: string)
    ensures Here([], text)
  {
    assert text[..0] == [];
    assert InLang(Items([]), text[..0]);
  }

  lemma DollarHere(text: string)
    ensures Here(['$'], text) <==> text == []
  {
    assert InLang(Items(['$']), text[..|text|]) <==> text == [];
  }

  lemma OneHere(re: string, text: string)
    requires re != [] && !(|re| > 1 && re[1] == '*') && re != ['$']
    ensures Here(re, text) <==> text != [] && Hit(re[0], text[0]) && Here(re[1..], text[1..])
  {
    var items := Items(re);
    assert items == [One(re[0])] + Items(re[1..]) && items[1..] == Items(re[1..]);
    if Here(re, text) {
      var k :| 0 <= k <= |text| && (AtEnd(re) ==> k == |text|) && InLang(items, text[..k]);
      assert text[..k][1..] == text[1..][..k - 1];
    }
    if text != [] && Hit(re[0], text[0]) && Here(re[1..], text[1..]) {
      var k :| 0 <= k <= |text[1..]| && (AtEnd(re[1..]) ==> k == |text[1..]|) && InLang(Items(re[1..]), text[1..][..k]);
      assert text[..k + 1][1..] == text[1..][..k];
      assert InLang(items, text[..k + 1]);
    }
  }

  lemma StarHere(re: string, text: string)
    requires |re| > 1 && re[1] == '*'
    ensures Here(re, text) <==> exists n :: 0 <= n <= |text| && AllHit(re[0], text[..n]) && Here(re[2..], text[n..])
  {
    var items, c := Items(re), re[0];
    assert items == [Star(c)] + Items(re[2..]) && items[1..] == Items(re[2..]);
    if Here(re, text) {
      var k :| 0 <= k <= |text| && (AtEnd(re) ==> k == |text|) && InLang(items, text[..k]);
      var n :| 0 <= n <= k && AllHit(c, text[..k][..n]) && InLang(items[1..], text[..k][n..]);
      assert text[..k][..n] == text[..n] && text[..k][n..] == text[n..][..k - n];
      assert Here(re[2..], text[n..]);
    }
    if n :| 0 <= n <= |text| && AllHit(c, text[..n]) && Here(re[2..], text[n..]) {
      var k :| 0 <= k <= |text[n..]| && (AtEnd(re[2..]) ==> k == |text[n..]|) && InLang(Items(re[2..]), text[n..][..k]);
      assert text[..n + k][..n] == text[..n] && text[..n + k][n..] == text[n..][..k];
      assert InLang(items, text[..n + k]);
    }
  }
}
