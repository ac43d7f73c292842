/**
The words of a command line (src/sh.c): how a line falls into tokens, that a parse keeps every word
and invents none, and that ending words with NULs in place cuts no other word.
*/
module ShellWords {
  import opened ShellSyntax

  // ---------- the words of a tree ----------

  function Files(rs: seq<Redirect>): set<Span> {
    set r | r in rs :: r.file
  }

  /** Every argument and file name in a tree. */
  function Spans(cmd: Cmd): set<Span> {
    match cmd
    case Exec(argv) => set a | a in argv
    case Redir(c, file, _, _) => Spans(c) + {file}
    case Pipe(l, r) => Spans(l) + Spans(r)
    case List(l, r) => Spans(l) + Spans(r)
    case Back(c) => Spans(c)
  }

  function WordsOf(ts: seq<Token>): set<Span> {
    set t | t in ts && t.Word? :: t.span
  }

  lemma WordsJoin(a: seq<Token>, b: seq<Token>)
    ensures WordsOf(a + b) == WordsOf(a) + WordsOf(b)
  {
  }

  lemma WordsOne(t: Token, ts: seq<Token>)
    ensures WordsOf([t] + ts) == (if t.Word? then {t.span} else {}) + WordsOf(ts)
  {
    WordsJoin([t], ts);
    assert WordsOf([t]) == if t.Word? then {t.span} else {} by {
      assert t in [t];
    }
  }

  lemma {:induction false} WrapSpans(cmd: Cmd, rs: seq<Redirect>)
    ensures Spans(Wrap(cmd, rs)) == Spans(cmd) + Files(rs)
  {
    if rs == [] {
      assert Files(rs) == {};
    } else {
      var most, last := rs[..|rs| - 1], rs[|rs| - 1];
      WrapSpans(cmd, most);
      assert Files(rs) == Files(most) + {last.file} by {
        assert rs == most + [last];
      }
    }
  }

  lemma FilesCons(r: Redirect, rs: seq<Redirect>)
    ensures Files([r] + rs) == {r.file} + Files(rs)
  {
    assert r in [r] + rs;
  }

  lemma {:induction false} RedirsWords(ts: seq<Token>, rs: seq<Redirect>)
    requires Redirs(ts, rs)
    ensures WordsOf(ts) == Files(rs)
    decreases |rs|
  {
    if rs == [] {
      assert WordsOf(ts) == Files(rs) == {};
    } else {
      RedirsWords(ts[2..], rs[1..]);
      assert ts == [ts[0]] + ([ts[1]] + ts[2..]) && rs == [rs[0]] + rs[1..];
      WordsOne(ts[1], ts[2..]);
      WordsOne(ts[0], [ts[1]] + ts[2..]);
      FilesCons(rs[0], rs[1..]);
    }
  }

  function ArgSet(args: seq<Span>): set<Span> {
    set a | a in args
  }

  lemma {:induction false} ItemsWords(ts: seq<Token>, args: seq<Span>, rs: seq<Redirect>)
    requires Items(ts, args, rs)
    ensures WordsOf(ts) == ArgSet(args) + Files(rs)
    decreases |ts|
  {
    if ts == [] {
      assert WordsOf(ts) == ArgSet(args) == Files(rs) == {};
    } else if ts[0].Word? {
      ItemsWords(ts[1..], args[1..], rs);
      assert ts == [ts[0]] + ts[1..] && args == [args[0]] + args[1..];
      WordsOne(ts[0], ts[1..]);
      assert ArgSet(args) == {args[0]} + ArgSet(args[1..]);
    } else {
      ItemsWords(ts[2..], args, rs[1..]);
      assert ts == [ts[0]] + ([ts[1]] + ts[2..]) && rs == [rs[0]] + rs[1..];
      WordsOne(ts[1], ts[2..]);
      WordsOne(ts[0], [ts[1]] + ts[2..]);
      FilesCons(rs[0], rs[1..]);
    }
  }

  lemma SplitWords(ts: seq<Token>, k: nat)
    requires k < |ts| && ts[k].Sym?
    ensures WordsOf(ts) == WordsOf(ts[..k]) + WordsOf(ts[k + 1..])
  {
    assert ts == ts[..k] + ([ts[k]] + ts[k + 1..]);
    WordsJoin(ts[..k], [ts[k]] + ts[k + 1..]);
    WordsOne(ts[k], ts[k + 1..]);
  }

  lemma {:induction false} ExecWords(ts: seq<Token>, cmd: Cmd)
    requires GExec(ts, cmd)
    ensures Spans(cmd) == WordsOf(ts)
    decreases |ts|, 0
  {
    if args, rs :| Simple(ts, cmd, args, rs) {
      ItemsWords(ts, args, rs);
      WrapSpans(Exec(args), rs);
    } else {
      var k, c, rs :| Block(ts, k, cmd, c, rs) && GLine(ts[1..k], c);
      hide GExec, GLine, Redirs, Wrap, Spans, WordsOf;
      LineWords(ts[1..k], c);
      RedirsWords(ts[k + 1..], rs);
      WrapSpans(c, rs);
      SplitWords(ts, k);
      SplitWords(ts[..k], 0);
      assert ts[..k][..0] == [] && ts[..k][1..] == ts[1..k];
      NoWords();
    }
  }

  lemma NoWords()
    ensures WordsOf([]) == {}
  {
  }

  lemma {:induction false} PipeWords(ts: seq<Token>, cmd: Cmd)
    requires GPipe(ts, cmd)
    ensures Spans(cmd) == WordsOf(ts)
    decreases |ts|, 1
  {
    if GExec(ts, cmd) {
      ExecWords(ts, cmd);
    } else {
      var k :| 0 <= k < |ts| && ts[k] == Sym('|') && GExec(ts[..k], cmd.left) && GPipe(ts[k + 1..], cmd.right);
      hide GExec, WordsOf;
      ExecWords(ts[..k], cmd.left);
      PipeWords(ts[k + 1..], cmd.right);
      SplitWords(ts, k);
    }
  }

  lemma {:induction false} BackWords(ts: seq<Token>, cmd: Cmd)
    requires GBack(ts, cmd)
    ensures Spans(cmd) == WordsOf(ts)
    decreases |ts|, 2
  {
    if GPipe(ts, cmd) {
      PipeWords(ts, cmd);
    } else {
      BackWords(ts[..|ts| - 1], cmd.cmd);
      hide GPipe, WordsOf;
      SplitWords(ts, |ts| - 1);
      assert ts[|ts|..] == [];
      NoWords();
    }
  }

  /** The words of a tree are the words of the line. */
  lemma {:induction false} LineWords(ts: seq<Token>, cmd: Cmd)
    requires GLine(ts, cmd)
    ensures Spans(cmd) == WordsOf(ts)
    decreases |ts|, 3
  {
    if GBack(ts, cmd) {
      BackWords(ts, cmd);
    } else {
      var k :| 0 <= k < |ts| && ts[k] == Sym(';') && GBack(ts[..k], cmd.left) && GLine(ts[k + 1..], cmd.right);
      hide GBack, WordsOf;
      BackWords(ts[..k], cmd.left);
      LineWords(ts[k + 1..], cmd.right);
      SplitWords(ts, k);
    }
  }

  // ---------- tokens of a line ----------

  predicate IsSpace(c: char) {
    c == ' ' || c == '\t' || c == '\r' || c == '\n' || c == 11 as char
  }

  predicate IsSymbol(c: char) {
    c == '<' || c == '|' || c == '>' || c == '&' || c == ';' || c == '(' || c == ')'
  }

  predicate WordChar(c: char) {
    !IsSpace(c) && !IsSymbol(c)
  }

  /** The first position from s on that is no white space. */
  function SkipTo(text: string, s: nat): (r: nat)
    requires s <= |text|
    ensures s <= r <= |text| && (r < |text| ==> !IsSpace(text[r]))
    decreases |text| - s
  {
    if s < |text| && IsSpace(text[s]) then SkipTo(text, s + 1) else s
  }

  /** The first position from s on that is no part of a word. */
  function WordEnd(text: string, s: nat): (r: nat)
    requires s <= |text|
    ensures s <= r <= |text| && (r < |text| ==> !WordChar(text[r])) && forall i :: s <= i < r ==> WordChar(text[i])
    ensures s < |text| && WordChar(text[s]) ==> s < r
    decreases |text| - s
  {
    if s < |text| && WordChar(text[s]) then WordEnd(text, s + 1) else s
  }

  predicate Twice(text: string, q: nat) {
    q + 1 < |text| && text[q] == '>' && text[q + 1] == '>'
  }

  /** The token at q, where the next one starts to be looked for, and what it is. */
  function TokenAt(text: string, q: nat): (r: (Token, nat))
    requires q < |text| && !IsSpace(text[q])
    ensures q < r.1 <= |text|
  {
    if Twice(text, q) then (Sym('+'), q + 2)
    else if IsSymbol(text[q]) then (Sym(text[q]), q + 1)
    else (Word(Span(q, WordEnd(text, q))), WordEnd(text, q))
  }

  /** The tokens from position s on. */
  function Lex(text: string, s: nat): seq<Token>
    requires s <= |text|
    decreases |text| - s
  {
    var q := SkipTo(text, s);
    if q == |text| then [] else [TokenAt(text, q).0] + Lex(text, TokenAt(text, q).1)
  }

  /** A maximal run of word characters. */
  ghost predicate MaxWord(text: string, w: Span) {
    && w.lo < w.hi <= |text| && (forall i :: w.lo <= i < w.hi ==> WordChar(text[i]))
    && (w.hi < |text| ==> !WordChar(text[w.hi]))
  }

  lemma {:induction false} LexWords(text: string, s: nat)
    requires s <= |text|
    ensures forall w :: w in WordsOf(Lex(text, s)) ==> MaxWord(text, w)
    decreases |text| - s
  {
    var q := SkipTo(text, s);
    if q == |text| {
      NoWords();
    } else {
      var t := TokenAt(text, q);
      LexWords(text, t.1);
      WordsOne(t.0, Lex(text, t.1));
    }
  }

  /** The characters from s on that are no white space. */
  function Inked(text: string, s: nat): string
    decreases |text| - s
  {
    if s >= |text| then "" else (if IsSpace(text[s]) then "" else [text[s]]) + Inked(text, s + 1)
  }

  /** How a token is written. */
  function Written(text: string, t: Token): string {
    match t
    case Word(w) => if w.lo <= w.hi <= |text| then text[w.lo..w.hi] else ""
    case Sym(c) => if c == '+' then ">>" else [c]
  }

  function WrittenAll(text: string, ts: seq<Token>): string {
    if ts == [] then "" else Written(text, ts[0]) + WrittenAll(text, ts[1..])
  }

  lemma {:induction false} SkipInked(text: string, s: nat)
    requires s <= |text|
    ensures Inked(text, SkipTo(text, s)) == Inked(text, s)
    decreases |text| - s
  {
    if s < |text| && IsSpace(text[s]) {
      SkipInked(text, s + 1);
    }
  }

  lemma {:induction false} RunInked(text: string, s: nat, e: nat)
    requires s <= e <= |text| && forall i :: s <= i < e ==> !IsSpace(text[i])
    ensures Inked(text, s) == text[s..e] + Inked(text, e)
    decreases e - s
  {
    hide Inked;
    if s < e {
      RunInked(text, s + 1, e);
      InkedNext(text, s);
      assert text[s..e] == [text[s]] + text[s + 1..e];
      assert [text[s]] + (text[s + 1..e] + Inked(text, e)) == text[s..e] + Inked(text, e);
    } else {
      assert text[s..e] == "";
    }
  }

  lemma InkedNext(text: string, s: nat)
    requires s < |text| && !IsSpace(text[s])
    ensures Inked(text, s) == [text[s]] + Inked(text, s + 1)
  {
  }

  lemma TokenInked(text: string, q: nat)
    requires q < |text| && !IsSpace(text[q])
    ensures Inked(text, q) == Written(text, TokenAt(text, q).0) + Inked(text, TokenAt(text, q).1)
  {
    hide Inked;
    var t := TokenAt(text, q);
    RunInked(text, q, t.1);
    if Twice(text, q) {
      assert text[q..q + 2] == ">>";
    } else if IsSymbol(text[q]) {
      assert text[q..q + 1] == [text[q]];
    }
  }

  /** The tokens one after the other are the line without its white space: nothing is lost, added or moved. */
  lemma {:induction false} LexText(text: string, s: nat)
    requires s <= |text|
    ensures WrittenAll(text, Lex(text, s)) == Inked(text, s)
    decreases |text| - s
  {
    hide TokenAt, Written;
    var q := SkipTo(text, s);
    SkipInked(text, s);
    if q < |text| {
      var t := TokenAt(text, q);
      LexText(text, t.1);
      TokenInked(text, q);
      assert Lex(text, s)[1..] == Lex(text, t.1);
    }
  }

  // ---------- ending the words with NULs ----------

  const NUL: char := 0 as char

  function Ends(cmd: Cmd): set<nat> {
    set w | w in Spans(cmd) :: w.hi
  }

  /** The C string at position i. */
  function CStr(b: seq<char>, i: nat): string
    decreases |b| - i
  {
    if i < |b| && b[i] != NUL then [b[i]] + CStr(b, i + 1) else []
  }

  lemma {:induction false} CStrIs(b: seq<char>, lo: nat, hi: nat)
    requires lo <= hi < |b| && b[hi] == NUL && forall i :: lo <= i < hi ==> b[i] != NUL
    ensures CStr(b, lo) == b[lo..hi]
    decreases hi - lo
  {
    if lo < hi {
      CStrIs(b, lo + 1, hi);
    }
  }

  /** With a NUL written at the end of every word, each word reads as a C string of its own. */
  lemma WordReads(text: string, b: seq<char>, words: set<Span>, w: Span)
    requires |b| > |text| && NUL !in text && w in words && forall v :: v in words ==> MaxWord(text, v)
    requires forall i :: 0 <= i <= |text| ==>
               b[i] == if i == |text| || (exists v :: v in words && v.hi == i) then NUL else text[i]
    ensures w.lo <= w.hi <= |text| && CStr(b, w.lo) == text[w.lo..w.hi]
  {
    forall i | w.lo <= i < w.hi ensures b[i] == text[i] != NUL {
      assert MaxWord(text, w);
      assert text[i] in text;
    }
    CStrIs(b, w.lo, w.hi);
    assert b[w.lo..w.hi] == text[w.lo..w.hi];
  }
}
