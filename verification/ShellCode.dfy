/**
The parser of src/sh.c: gettoken, peek and the recursive-descent functions move a cursor over the line,
and nulterminate writes into it.
*/
module ShellCode {
  import opened Common
  import opened ShellSyntax
  import opened ShellTrees
  import opened ShellWords

  /** What gettoken returns for a token: 'a' for a word. */
  function Code(t: Token): char {
    if t.Word? then 'a' else t.c
  }

  /** The first byte of a symbol. */
  function First(t: Token): char {
    if t == Sym('+') then '>' else Code(t)
  }

  class Parser {
    const text: string
    var pos: nat

    constructor (text: string)
      requires NUL !in text
      ensures this.text == text && pos == 0
    {
      this.text := text;
      pos := 0;
    }

    ghost predicate Valid()
      reads this
    {
      pos <= |text| && NUL !in text
    }

    /** The tokens still to come. */
    ghost function Rest(): seq<Token>
      requires Valid()
      reads this
    {
      Lex(text, pos)
    }

    /** *s, NUL at the end of the line. */
    function At(s: nat): char {
      if s < |text| then text[s] else NUL
    }

    method SkipSpaces(from: nat) returns (s: nat)
      requires from <= |text|
      ensures s == SkipTo(text, from)
    {
      s := from;
      while s < |text| && IsSpace(text[s])
        invariant from <= s <= |text| && SkipTo(text, s) == SkipTo(text, from)
      {
        s := s + 1;
      }
    }

    /** gettoken: the next token, with the span of a word in q and eq; NUL at the end of the line. */
    method Gettoken() returns (ret: char, q: nat, eq: nat)
      requires Valid()
      modifies this`pos
      ensures Valid() && old(pos) <= pos
      ensures old(Rest()) == [] ==> ret == NUL && Rest() == []
      ensures old(Rest()) != [] ==>
                && ret == Code(old(Rest())[0]) && Rest() == old(Rest())[1..] && old(pos) < pos
                && (if old(Rest())[0].Word? then old(Rest())[0].span == Span(q, eq) else ret != 'a' && ret != NUL)
    {
      var s := SkipSpaces(pos);
      SameLex(text, pos, s);
      q := s;
      ret := At(s);
      if At(s) == NUL {
        TextHas(text, s);
      } else if At(s) == '|' || At(s) == '(' || At(s) == ')' || At(s) == ';' || At(s) == '&' || At(s) == '<' {
        s := s + 1;
      } else if At(s) == '>' {
        s := s + 1;
        if At(s) == '>' {
          ret := '+';
          s := s + 1;
        }
      } else {
        ret := 'a';
        while s < |text| && !IsSpace(text[s]) && !IsSymbol(text[s])
          invariant q <= s <= |text| && WordEnd(text, s) == WordEnd(text, q)
        {
          s := s + 1;
        }
      }
      eq := s;
      ghost var e := s;
      s := SkipSpaces(s);
      SameLex(text, e, s);
      pos := s;
    }

    /** peek: is the next token one that starts with a byte of toks? */
    method Peek(toks: string) returns (b: bool)
      requires Valid() && forall c :: c in toks ==> IsSymbol(c)
      modifies this`pos
      ensures Valid() && old(pos) <= pos == SkipTo(text, pos) && Rest() == old(Rest())
      ensures b <==> Rest() != [] && First(Rest()[0]) in toks
    {
      var s := SkipSpaces(pos);
      SameLex(text, pos, s);
      pos := s;
      b := At(s) != NUL && At(s) in toks;
      TextHas(text, s);
      FirstIs(text, s);
    }

    // ---------- recursive descent ----------

    method ParseRedirs() returns (r: Option<seq<Redirect>>)
      requires Valid()
      modifies this`pos
      ensures Valid() && old(pos) <= pos
      ensures r == (if PRedirs(old(Rest())).None? then None else Some(PRedirs(old(Rest())).value.0))
      ensures r.Some? ==> PRedirs(old(Rest())).value.1 == Rest()
    {
      hide Lex, PRedirs;
      ghost var p0 := PRedirs(Rest());
      var rs: seq<Redirect> := [];
      RedirsStart(p0);
      var more := Peek("<>");
      while more
        invariant Valid() && old(pos) <= pos && (more <==> Next(Rest(), "<>+")) && RedirsLeft(p0, rs, PRedirs(Rest()))
        decreases |text| - pos
      {
        ghost var ts := Rest();
        RedirsStep(p0, rs, ts);
        var tok, _, _ := Gettoken();
        var ret, q, eq := Gettoken();
        if ret != 'a' {
          return None;
        }
        rs := rs + [Redirect(tok, Span(q, eq))];
        assert ts[1..][1..] == ts[2..];
        more := Peek("<>");
      }
      RedirsEnd(p0, rs, Rest());
      return Some(rs);
    }

    method ParseLine() returns (r: Option<Cmd>)
      requires Valid()
      modifies this`pos
      ensures Valid() && old(pos) <= pos && Parsed(PLine(old(Rest())), r, Rest())
      decreases |text| - pos, 4
    {
      hide Lex, PPipe;
      r := ParsePipe();
      if r.None? {
        return;
      }
      var cmd := r.value;
      ghost var p := PPipe(old(Rest())).value;
      var amp := Peek("&");
      while amp
        invariant Valid() && old(pos) <= pos && (amp <==> Next(Rest(), "&"))
                  && PAmps(cmd, Rest()) == PAmps(p.cmd, p.rest)
        decreases |text| - pos
      {
        var _, _, _ := Gettoken();
        cmd := Back(cmd);
        amp := Peek("&");
      }
      var semi := Peek(";");
      if semi {
        var _, _, _ := Gettoken();
        var right := ParseLine();
        if right.None? {
          return None;
        }
        cmd := List(cmd, right.value);
      }
      return Some(cmd);
    }

    method ParsePipe() returns (r: Option<Cmd>)
      requires Valid()
      modifies this`pos
      ensures Valid() && old(pos) <= pos && Parsed(PPipe(old(Rest())), r, Rest())
      decreases |text| - pos, 3
    {
      hide Lex, PExec;
      r := ParseExec();
      if r.None? {
        return;
      }
      var bar := Peek("|");
      if bar {
        var _, _, _ := Gettoken();
        var right := ParsePipe();
        if right.None? {
          return None;
        }
        r := Some(Pipe(r.value, right.value));
      }
    }

    method ParseBlock() returns (r: Option<Cmd>)
      requires Valid() && Next(Rest(), "(")
      modifies this`pos
      ensures Valid() && old(pos) <= pos && Parsed(PExec(old(Rest())), r, Rest())
      decreases |text| - pos, 1
    {
      hide Lex, PLine, PRedirs;
      var _, _, _ := Gettoken();
      r := ParseLine();
      if r.None? {
        return;
      }
      var close := Peek(")");
      if !close {
        return None;
      }
      var _, _, _ := Gettoken();
      var rs := ParseRedirs();
      if rs.None? {
        return None;
      }
      return Some(Wrap(r.value, rs.value));
    }

    method ParseExec() returns (r: Option<Cmd>)
      requires Valid()
      modifies this`pos
      ensures Valid() && old(pos) <= pos && Parsed(PExec(old(Rest())), r, Rest())
      decreases |text| - pos, 2
    {
      hide Lex, PLine, PRedirs, Wrap, PItems, PExec;
      var open := Peek("(");
      if open {
        r := ParseBlock();
        return;
      }
      ghost var p0 := PExec(Rest());
      var argv: seq<Span> := [];
      ItemsStart(Rest());
      var rs0 := ParseRedirs();
      if rs0.None? {
        return None;
      }
      var rs := rs0.value;
      var stop := Peek("|)&;");
      while !stop
        invariant Valid() && old(pos) <= pos && (stop <==> Next(Rest(), "|)&;")) && |argv| < MAXARGS
        invariant ItemsLeft(p0, argv, rs, PItems(Rest(), |argv|))
        decreases |text| - pos, !stop
      {
        ghost var ts := Rest();
        ItemsStep(p0, argv, rs, ts);
        var tok, q, eq := Gettoken();
        if tok == NUL {
          break;
        }
        if tok != 'a' {
          return None;
        }
        argv := argv + [Span(q, eq)];
        if |argv| >= MAXARGS {
          return None;
        }
        var more := ParseRedirs();
        if more.None? {
          return None;
        }
        rs := rs + more.value;
        stop := Peek("|)&;");
      }
      ItemsEnd(p0, argv, rs, Rest());
      return Some(Wrap(Exec(argv), rs));
    }
  }

  /** A parse function did what the parser on tokens does. */
  ghost predicate Parsed(p: Option<Parse>, r: Option<Cmd>, rest: seq<Token>) {
    if p.None? then r.None? else r == Some(p.value.cmd) && rest == p.value.rest
  }

  /** The parse p is what argv and rs become with the items still to come. */
  ghost predicate ItemsLeft(p: Option<Parse>, argv: seq<Span>, rs: seq<Redirect>,
                            m: Option<(seq<Span>, seq<Redirect>, seq<Token>)>)
  {
    if m.None? then p.None?
    else p == Some(Parse(Wrap(Exec(argv + m.value.0), rs + m.value.1), m.value.2))
  }

  lemma SameLex(text: string, s: nat, q: nat)
    requires s <= |text| && q == SkipTo(text, s)
    ensures Lex(text, q) == Lex(text, s)
  {
  }

  lemma TextHas(text: string, s: nat)
    requires s <= |text| && NUL !in text
    ensures s < |text| ==> text[s] != NUL
  {
  }

  lemma FirstIs(text: string, s: nat)
    requires s < |text| ==> !IsSpace(text[s])
    requires s <= |text|
    ensures s == |text| <==> Lex(text, s) == []
    ensures s < |text| ==> if IsSymbol(text[s]) then First(Lex(text, s)[0]) == text[s]
            else First(Lex(text, s)[0]) == 'a'
  {
  }

  /** The parse p0 is rs followed by what is still to come. */
  ghost predicate RedirsLeft(p0: Option<(seq<Redirect>, seq<Token>)>, rs: seq<Redirect>,
                             p: Option<(seq<Redirect>, seq<Token>)>)
  {
    if p.None? then p0.None? else p0 == Some((rs + p.value.0, p.value.1))
  }

  lemma RedirsStart(p: Option<(seq<Redirect>, seq<Token>)>)
    ensures RedirsLeft(p, [], p)
  {
    if p.Some? {
      assert [] + p.value.0 == p.value.0;
    }
  }

  lemma {:induction false} RedirsStep(p0: Option<(seq<Redirect>, seq<Token>)>, rs: seq<Redirect>, ts: seq<Token>)
    requires RedirsLeft(p0, rs, PRedirs(ts)) && Next(ts, "<>+")
    ensures if |ts| >= 2 && ts[1].Word? then RedirsLeft(p0, rs + [Redirect(ts[0].c, ts[1].span)], PRedirs(ts[2..]))
            else p0.None?
  {
    if |ts| >= 2 && ts[1].Word? && PRedirs(ts[2..]).Some? {
      var r := [Redirect(ts[0].c, ts[1].span)];
      assert rs + (r + PRedirs(ts[2..]).value.0) == (rs + r) + PRedirs(ts[2..]).value.0;
    }
  }

  lemma {:induction false} RedirsEnd(p0: Option<(seq<Redirect>, seq<Token>)>, rs: seq<Redirect>, ts: seq<Token>)
    requires RedirsLeft(p0, rs, PRedirs(ts)) && !Next(ts, "<>+")
    ensures p0 == Some((rs, ts))
  {
    assert rs + [] == rs;
  }

  lemma {:induction false} ItemsStart(ts: seq<Token>)
    requires !Next(ts, "(")
    ensures if PRedirs(ts).None? then PExec(ts).None?
            else ItemsLeft(PExec(ts), [], PRedirs(ts).value.0, PItems(PRedirs(ts).value.1, 0))
  {
    if PRedirs(ts).Some? && PItems(PRedirs(ts).value.1, 0).Some? {
      var args := PItems(PRedirs(ts).value.1, 0).value.0;
      assert [] + args == args;
    }
  }

  lemma {:induction false} ItemsStep(p0: Option<Parse>, argv: seq<Span>, rs: seq<Redirect>, ts: seq<Token>)
    requires ItemsLeft(p0, argv, rs, PItems(ts, |argv|)) && !Next(ts, "|)&;")
    ensures ts != [] && (!ts[0].Word? || |argv| + 1 >= MAXARGS || PRedirs(ts[1..]).None?) ==> p0.None?
    ensures ts != [] && ts[0].Word? && |argv| + 1 < MAXARGS && PRedirs(ts[1..]).Some? ==>
              var p := PRedirs(ts[1..]).value;
              ItemsLeft(p0, argv + [ts[0].span], rs + p.0, PItems(p.1, |argv| + 1))
  {
    if ts != [] && ts[0].Word? && |argv| + 1 < MAXARGS && PRedirs(ts[1..]).Some? {
      var p := PRedirs(ts[1..]).value;
      var m := PItems(p.1, |argv| + 1);
      if m.Some? {
        assert argv + ([ts[0].span] + m.value.0) == (argv + [ts[0].span]) + m.value.0;
        assert rs + (p.0 + m.value.1) == (rs + p.0) + m.value.1;
      }
    }
  }

  lemma {:induction false} ItemsEnd(p0: Option<Parse>, argv: seq<Span>, rs: seq<Redirect>, ts: seq<Token>)
    requires ItemsLeft(p0, argv, rs, PItems(ts, |argv|)) && (ts == [] || Next(ts, "|)&;"))
    ensures p0 == Some(Parse(Wrap(Exec(argv), rs), ts))
  {
    assert argv + [] == argv && rs + [] == rs;
  }

  // ---------- nulterminate ----------

  /** nulterminate: a NUL goes to the end of every word of the tree, and nowhere else. */
  method Nulterminate(cmd: Cmd, buf: array<char>)
    requires forall w :: w in Spans(cmd) ==> w.hi < buf.Length
    modifies buf
    ensures forall i :: 0 <= i < buf.Length ==> buf[i] == if i in Ends(cmd) then NUL else old(buf[i])
    decreases cmd
  {
    match cmd {
      case Exec(argv) =>
        var i := 0;
        while i < |argv|
          invariant 0 <= i <= |argv|
          invariant forall k :: 0 <= k < buf.Length ==>
                      buf[k] == if exists j :: 0 <= j < i && argv[j].hi == k then NUL else old(buf[k])
        {
          assert argv[i] in Spans(cmd);
          buf[argv[i].hi] := NUL;
          i := i + 1;
        }
        forall k | 0 <= k < buf.Length ensures k in Ends(cmd) <==> exists j :: 0 <= j < |argv| && argv[j].hi == k {
          if j :| 0 <= j < |argv| && argv[j].hi == k {
            assert argv[j] in Spans(cmd);
          }
        }
      case Redir(c, file, _, _) =>
        EndsRedir(cmd);
        Nulterminate(c, buf);
        assert file in Spans(cmd);
        buf[file.hi] := NUL;
      case Pipe(l, r) =>
        EndsBoth(l, r);
        Nulterminate(l, buf);
        Nulterminate(r, buf);
        assert Ends(cmd) == Ends(l) + Ends(r);
      case List(l, r) =>
        EndsBoth(l, r);
        Nulterminate(l, buf);
        Nulterminate(r, buf);
        assert Ends(cmd) == Ends(l) + Ends(r);
      case Back(c) =>
        Nulterminate(c, buf);
    }
  }

  lemma EndsRedir(cmd: Cmd)
    requires cmd.Redir?
    ensures Ends(cmd) == Ends(cmd.cmd) + {cmd.file.hi}
  {
    assert cmd.file in Spans(cmd);
  }

  lemma EndsBoth(l: Cmd, r: Cmd)
    ensures Ends(Pipe(l, r)) == Ends(List(l, r)) == Ends(l) + Ends(r)
  {
  }

  // ---------- parsecmd ----------

  /** parsecmd on the n bytes of a line, NUL-terminated in buf: None stands for the exit on a syntax
      error. */
  method ParseCmd(buf: array<char>, n: nat) returns (r: Option<Cmd>)
    requires n < buf.Length && buf[n] == NUL && NUL !in buf[..n]
    modifies buf
    ensures var ts := Lex(old(buf[..n]), 0);
            if r.Some? then GLine(ts, r.value) && Spans(r.value) == WordsOf(ts) && Tells(ts, r.value)
            else forall cmd :: !GLine(ts, cmd)
    ensures r.Some? ==>
              forall w :: w in Spans(r.value) ==> w.lo < w.hi <= n && CStr(buf[..], w.lo) == old(buf[..n])[w.lo..w.hi]
    ensures r.None? ==> buf[..] == old(buf[..])
    ensures buf[n..] == old(buf[n..])
  {
    hide GLine, PLine, Lex, WordsOf, CStr, MaxWord, Tells;
    var text := buf[..n];
    ghost var ts := Lex(text, 0);
    var p := new Parser(text);
    r := p.ParseLine();
    if r.None? {
      Rejects(ts);
      return;
    }
    var _ := p.Peek("");
    FirstIs(text, p.pos);
    if p.pos != n {
      Rejects(ts);
      return None;
    }
    ParsesExactly(ts, r.value);
    LineWords(ts, r.value);
    LineTells(ts, r.value);
    LexWords(text, 0);
    WordsFit(text, r.value);
    Nulterminate(r.value, buf);
    WordsRead(text, buf[..], r.value);
  }

  lemma {:induction false} Rejects(ts: seq<Token>)
    requires PLine(ts).None? || PLine(ts).value.rest != []
    ensures forall cmd :: !GLine(ts, cmd)
  {
    hide GLine, PLine;
    forall cmd ensures !GLine(ts, cmd) {
      ParsesExactly(ts, cmd);
    }
  }

  lemma {:induction false} WordsFit(text: string, cmd: Cmd)
    requires forall w :: w in Spans(cmd) ==> MaxWord(text, w)
    ensures forall w :: w in Spans(cmd) ==> w.lo < w.hi <= |text|
  {
    hide Spans;
  }

  lemma {:induction false} WordsRead(text: string, b: seq<char>, cmd: Cmd)
    requires |b| > |text| && NUL !in text && (forall w :: w in Spans(cmd) ==> MaxWord(text, w))
    requires forall i :: 0 <= i <= |text| ==> b[i] == if i == |text| || i in Ends(cmd) then NUL else text[i]
    ensures forall w :: w in Spans(cmd) ==> w.lo < w.hi <= |text| && CStr(b, w.lo) == text[w.lo..w.hi]
  {
    hide CStr;
    forall w | w in Spans(cmd) ensures w.lo < w.hi <= |text| && CStr(b, w.lo) == text[w.lo..w.hi] {
      assert MaxWord(text, w);
      WordReads(text, b, Spans(cmd), w);
    }
  }
}
