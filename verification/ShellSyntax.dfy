/**
The command language of src/sh.c: tokens of a line, the tree a parse builds, the grammar that relates
them, and the parser as a function on tokens. The parser finds exactly the trees of the grammar.
*/
module ShellSyntax {
  import opened Common

  /** Bytes lo .. hi-1 of the line. */
  datatype Span = Span(lo: nat, hi: nat)

  datatype Token = Word(span: Span) | Sym(c: char)

  /** '+' stands for >>. */
  datatype Redirect = Redirect(op: char, file: Span)

  datatype Cmd =
    | Exec(argv: seq<Span>)
    | Redir(cmd: Cmd, file: Span, mode: nat, fd: nat)
    | Pipe(left: Cmd, right: Cmd)
    | List(left: Cmd, right: Cmd)
    | Back(cmd: Cmd)

  const MAXARGS: nat := 10
  const O_RDONLY: nat := 0
  const O_WRONLY_CREATE: nat := 0x201

  // ---------- the tree of a simple command ----------

  predicate IsRedirOp(c: char) {
    c == '<' || c == '>' || c == '+'
  }

  function RedirOf(cmd: Cmd, r: Redirect): Cmd {
    Redir(cmd, r.file, if r.op == '<' then O_RDONLY else O_WRONLY_CREATE, if r.op == '<' then 0 else 1)
  }

  /** Redirections wrap the command in the order they appear, the last outermost. */
  function Wrap(cmd: Cmd, rs: seq<Redirect>): Cmd {
    if rs == [] then cmd else RedirOf(Wrap(cmd, rs[..|rs| - 1]), rs[|rs| - 1])
  }

  // ---------- the grammar ----------

  /** Redirections: an operator and a file name each. */
  ghost predicate Redirs(ts: seq<Token>, rs: seq<Redirect>)
    decreases |rs|
  {
    if rs == [] then ts == []
    else
      && |ts| >= 2 && ts[0] == Sym(rs[0].op) && IsRedirOp(rs[0].op) && ts[1] == Word(rs[0].file)
      && Redirs(ts[2..], rs[1..])
  }

  /** Words and redirections in any order. */
  ghost predicate Items(ts: seq<Token>, args: seq<Span>, rs: seq<Redirect>)
    decreases |ts|
  {
    if ts == [] then args == [] && rs == []
    else if ts[0].Word? then args != [] && args[0] == ts[0].span && Items(ts[1..], args[1..], rs)
    else
      && rs != [] && |ts| >= 2 && ts[0] == Sym(rs[0].op) && IsRedirOp(rs[0].op) && ts[1] == Word(rs[0].file)
      && Items(ts[2..], args, rs[1..])
  }

  ghost predicate Simple(ts: seq<Token>, cmd: Cmd, args: seq<Span>, rs: seq<Redirect>) {
    Items(ts, args, rs) && |args| < MAXARGS && cmd == Wrap(Exec(args), rs)
  }

  /** exec: a simple command, or ( line ) with redirections. */
  ghost predicate GExec(ts: seq<Token>, cmd: Cmd)
    decreases |ts|, 0
  {
    || (exists args, rs :: Simple(ts, cmd, args, rs))
    || (exists k, c, rs :: Block(ts, k, cmd, c, rs) && GLine(ts[1..k], c))
  }

  ghost predicate Block(ts: seq<Token>, k: int, cmd: Cmd, c: Cmd, rs: seq<Redirect>) {
    1 <= k < |ts| && ts[0] == Sym('(') && ts[k] == Sym(')') && Redirs(ts[k + 1..], rs) && cmd == Wrap(c, rs)
  }

  /** pipe: exec, or exec | pipe. */
  ghost predicate GPipe(ts: seq<Token>, cmd: Cmd)
    decreases |ts|, 1
  {
    || GExec(ts, cmd)
    || (cmd.Pipe? && exists k ::
          0 <= k < |ts| && ts[k] == Sym('|') && GExec(ts[..k], cmd.left) && GPipe(ts[k + 1..], cmd.right))
  }

  /** pipe followed by n ampersands. */
  ghost predicate GBack(ts: seq<Token>, cmd: Cmd)
    decreases |ts|, 2
  {
    || GPipe(ts, cmd)
    || (cmd.Back? && ts != [] && ts[|ts| - 1] == Sym('&') && GBack(ts[..|ts| - 1], cmd.cmd))
  }

  /** line: pipe & ..., then ; line if there is more. */
  ghost predicate GLine(ts: seq<Token>, cmd: Cmd)
    decreases |ts|, 3
  {
    || GBack(ts, cmd)
    || (cmd.List? && exists k ::
          0 <= k < |ts| && ts[k] == Sym(';') && GBack(ts[..k], cmd.left) && GLine(ts[k + 1..], cmd.right))
  }

  // ---------- the parser ----------

  datatype Parse = Parse(cmd: Cmd, rest: seq<Token>)

  /** The next token is one of the symbols cs. */
  predicate Next(ts: seq<Token>, cs: string) {
    ts != [] && ts[0].Sym? && ts[0].c in cs
  }

  /** parseredirs: the redirections in front, None for a missing file name. */
  function PRedirs(ts: seq<Token>): (r: Option<(seq<Redirect>, seq<Token>)>)
    ensures r.Some? ==> |r.value.1| <= |ts|
  {
    if !Next(ts, "<>+") then Some(([], ts))
    else if |ts| < 2 || !ts[1].Word? then None
    else
      var r := PRedirs(ts[2..]);
      if r.None? then None else Some(([Redirect(ts[0].c, ts[1].span)] + r.value.0, r.value.1))
  }

  /** The loop of parseexec, after argc arguments. */
  function PItems(ts: seq<Token>, argc: nat): (r: Option<(seq<Span>, seq<Redirect>, seq<Token>)>)
    ensures r.Some? ==> |r.value.2| <= |ts|
    decreases |ts|
  {
    if ts == [] || Next(ts, "|)&;") then Some(([], [], ts))
    else if !ts[0].Word? || argc + 1 >= MAXARGS then None
    else
      var r := PRedirs(ts[1..]);
      if r.None? then None
      else
        var more := PItems(r.value.1, argc + 1);
        if more.None? then None else Some(([ts[0].span] + more.value.0, r.value.0 + more.value.1, more.value.2))
  }

  function PExec(ts: seq<Token>): (r: Option<Parse>)
    ensures r.Some? ==> |r.value.rest| <= |ts|
    decreases |ts|, 0
  {
    if Next(ts, "(") then
      var r := PLine(ts[1..]);
      if r.None? || !Next(r.value.rest, ")") then None
      else
        var rs := PRedirs(r.value.rest[1..]);
        if rs.None? then None else Some(Parse(Wrap(r.value.cmd, rs.value.0), rs.value.1))
    else
      var rs := PRedirs(ts);
      if rs.None? then None
      else
        var more := PItems(rs.value.1, 0);
        if more.None? then None else Some(Parse(Wrap(Exec(more.value.0), rs.value.0 + more.value.1), more.value.2))
  }

  function PPipe(ts: seq<Token>): (r: Option<Parse>)
    ensures r.Some? ==> |r.value.rest| <= |ts|
    decreases |ts|, 1
  {
    var l := PExec(ts);
    if l.None? || !Next(l.value.rest, "|") then l
    else
      var r := PPipe(l.value.rest[1..]);
      if r.None? then None else Some(Parse(Pipe(l.value.cmd, r.value.cmd), r.value.rest))
  }

  /** The ampersands after a pipe. */
  function PAmps(cmd: Cmd, ts: seq<Token>): (r: Parse)
    ensures |r.rest| <= |ts|
    decreases |ts|
  {
    if Next(ts, "&") then PAmps(Back(cmd), ts[1..]) else Parse(cmd, ts)
  }

  function PLine(ts: seq<Token>): (r: Option<Parse>)
    ensures r.Some? ==> |r.value.rest| <= |ts|
    decreases |ts|, 2
  {
    var p := PPipe(ts);
    if p.None? then None
    else
      var b := PAmps(p.value.cmd, p.value.rest);
      if !Next(b.rest, ";") then Some(b)
      else
        var r := PLine(b.rest[1..]);
        if r.None? then None else Some(Parse(List(b.cmd, r.value.cmd), r.value.rest))
  }

  // ---------- every parse is a tree of the grammar ----------

  /** The tokens a parse used up. */
  function Used(ts: seq<Token>, rest: seq<Token>): seq<Token>
    requires |rest| <= |ts|
  {
    ts[..|ts| - |rest|]
  }

  ghost predicate Tail(ts: seq<Token>, rest: seq<Token>) {
    |rest| <= |ts| && ts == ts[..|ts| - |rest|] + rest
  }

  lemma {:induction false} RedirsSound(ts: seq<Token>)
    requires PRedirs(ts).Some?
    ensures var r := PRedirs(ts).value; Tail(ts, r.1) && Redirs(Used(ts, r.1), r.0)
  {
    if Next(ts, "<>+") {
      RedirsSound(ts[2..]);
      var r, r2 := PRedirs(ts).value, PRedirs(ts[2..]).value;
      assert Used(ts, r.1)[2..] == Used(ts[2..], r2.1);
      assert r.0[1..] == r2.0;
    }
  }

  lemma {:induction false} ItemsJoin(a: seq<Token>, b: seq<Token>, args: seq<Span>, r1: seq<Redirect>,
                                     r2: seq<Redirect>)
    requires Redirs(a, r1) && Items(b, args, r2)
    ensures Items(a + b, args, r1 + r2)
    decreases |r1|
  {
    if r1 == [] {
      assert a + b == b && r1 + r2 == r2;
    } else {
      ItemsJoin(a[2..], b, args, r1[1..], r2);
      assert (a + b)[2..] == a[2..] + b && (r1 + r2)[1..] == r1[1..] + r2;
    }
  }

  /** Tokens used by two parses in a row. */
  lemma UsedJoin(ts: seq<Token>, mid: seq<Token>, rest: seq<Token>)
    requires Tail(ts, mid) && Tail(mid, rest)
    ensures Tail(ts, rest) && Used(ts, rest) == Used(ts, mid) + Used(mid, rest)
  {
  }

  lemma UsedOne(ts: seq<Token>, rest: seq<Token>)
    requires ts != [] && Tail(ts[1..], rest)
    ensures Tail(ts, rest) && Used(ts, rest) == [ts[0]] + Used(ts[1..], rest)
  {
  }

  lemma ItemsWord(t: Token, ts: seq<Token>, args: seq<Span>, rs: seq<Redirect>)
    requires t.Word? && Items(ts, args, rs)
    ensures Items([t] + ts, [t.span] + args, rs)
  {
    assert ([t] + ts)[1..] == ts && ([t.span] + args)[1..] == args;
  }

  lemma {:induction false} ItemsSound(ts: seq<Token>, argc: nat)
    requires PItems(ts, argc).Some?
    ensures var r := PItems(ts, argc).value;
            Tail(ts, r.2) && Items(Used(ts, r.2), r.0, r.1) && (r.0 != [] ==> argc + |r.0| < MAXARGS)
    decreases |ts|
  {
    hide Items, PRedirs, Redirs, Used, Tail;
    if ts == [] || Next(ts, "|)&;") {
      NoneUsed(ts);
    } else {
      var p := PRedirs(ts[1..]).value;
      var more := PItems(p.1, argc + 1).value;
      RedirsSound(ts[1..]);
      ItemsSound(p.1, argc + 1);
      UsedJoin(ts[1..], p.1, more.2);
      UsedOne(ts, more.2);
      ItemsJoin(Used(ts[1..], p.1), Used(p.1, more.2), more.0, p.0, more.1);
      ItemsWord(ts[0], Used(ts[1..], more.2), more.0, p.0 + more.1);
    }
  }

  lemma NoneUsed(ts: seq<Token>)
    ensures Tail(ts, ts) && Used(ts, ts) == [] && Items([], [], [])
  {
  }

  lemma BlockIs(mid: seq<Token>, c: Cmd, tail: seq<Token>, rs: seq<Redirect>)
    requires GLine(mid, c) && Redirs(tail, rs)
    ensures GExec([Sym('(')] + (mid + ([Sym(')')] + tail)), Wrap(c, rs))
  {
    var ts, k := [Sym('(')] + (mid + ([Sym(')')] + tail)), |mid| + 1;
    assert ts[1..k] == mid && ts[k] == Sym(')') && ts[k + 1..] == tail;
    hide GLine, Redirs, Wrap;
    assert Block(ts, k, Wrap(c, rs), c, rs);
  }

  lemma {:induction false} ExecSound(ts: seq<Token>)
    requires PExec(ts).Some?
    ensures var r := PExec(ts).value; Tail(ts, r.rest) && GExec(Used(ts, r.rest), r.cmd)
    decreases |ts|, 0
  {
    hide Items, PRedirs, Redirs, Used, Tail, Wrap, GLine, PLine, PItems;
    if Next(ts, "(") {
      var l := PLine(ts[1..]).value;
      var rs := PRedirs(l.rest[1..]).value;
      LineSound(ts[1..]);
      RedirsSound(l.rest[1..]);
      UsedOne(l.rest, rs.1);
      UsedJoin(ts[1..], l.rest, rs.1);
      UsedOne(ts, rs.1);
      BlockIs(Used(ts[1..], l.rest), l.cmd, Used(l.rest[1..], rs.1), rs.0);
    } else {
      var rs := PRedirs(ts).value;
      var more := PItems(rs.1, 0).value;
      RedirsSound(ts);
      ItemsSound(rs.1, 0);
      UsedJoin(ts, rs.1, more.2);
      ItemsJoin(Used(ts, rs.1), Used(rs.1, more.2), more.0, rs.0, more.1);
      assert Simple(Used(ts, more.2), Wrap(Exec(more.0), rs.0 + more.1), more.0, rs.0 + more.1);
    }
  }

  lemma PipeIs(a: seq<Token>, l: Cmd, b: seq<Token>, r: Cmd)
    requires GExec(a, l) && GPipe(b, r)
    ensures GPipe(a + ([Sym('|')] + b), Pipe(l, r))
  {
    var ts, k := a + ([Sym('|')] + b), |a|;
    assert ts[..k] == a && ts[k] == Sym('|') && ts[k + 1..] == b;
  }

  lemma {:induction false} PipeSound(ts: seq<Token>)
    requires PPipe(ts).Some?
    ensures var r := PPipe(ts).value; Tail(ts, r.rest) && GPipe(Used(ts, r.rest), r.cmd)
    decreases |ts|, 1
  {
    hide Used, Tail, GExec, PExec;
    ExecSound(ts);
    var l := PExec(ts).value;
    if Next(l.rest, "|") {
      var r := PPipe(l.rest[1..]).value;
      PipeSound(l.rest[1..]);
      UsedOne(l.rest, r.rest);
      UsedJoin(ts, l.rest, r.rest);
      PipeIs(Used(ts, l.rest), l.cmd, Used(l.rest[1..], r.rest), r.cmd);
    }
  }

  lemma {:induction false} AmpsSound(all: seq<Token>, cmd: Cmd, ts: seq<Token>)
    requires Tail(all, ts) && GBack(Used(all, ts), cmd)
    ensures var r := PAmps(cmd, ts); Tail(all, r.rest) && GBack(Used(all, r.rest), r.cmd)
    decreases |ts|
  {
    if Next(ts, "&") {
      var used := Used(all, ts[1..]);
      assert used == Used(all, ts) + [Sym('&')];
      assert used[..|used| - 1] == Used(all, ts);
      AmpsSound(all, Back(cmd), ts[1..]);
    }
  }

  lemma LineIs(a: seq<Token>, l: Cmd, b: seq<Token>, r: Cmd)
    requires GBack(a, l) && GLine(b, r)
    ensures GLine(a + ([Sym(';')] + b), List(l, r))
  {
    var ts, k := a + ([Sym(';')] + b), |a|;
    assert ts[..k] == a && ts[k] == Sym(';') && ts[k + 1..] == b;
  }

  lemma {:induction false} LineSound(ts: seq<Token>)
    requires PLine(ts).Some?
    ensures var r := PLine(ts).value; Tail(ts, r.rest) && GLine(Used(ts, r.rest), r.cmd)
    decreases |ts|, 2
  {
    hide Used, Tail, GPipe, PPipe, GBack, PAmps;
    PipeSound(ts);
    var p := PPipe(ts).value;
    PipeBack(Used(ts, p.rest), p.cmd);
    AmpsSound(ts, p.cmd, p.rest);
    var b := PAmps(p.cmd, p.rest);
    if Next(b.rest, ";") {
      var r := PLine(b.rest[1..]).value;
      LineSound(b.rest[1..]);
      UsedOne(b.rest, r.rest);
      UsedJoin(ts, b.rest, r.rest);
      LineIs(Used(ts, b.rest), b.cmd, Used(b.rest[1..], r.rest), r.cmd);
    }
  }

  lemma PipeBack(ts: seq<Token>, cmd: Cmd)
    requires GPipe(ts, cmd)
    ensures GBack(ts, cmd)
  {
  }

  // ---------- every tree of the grammar is found ----------

  lemma {:induction false} RedirsComplete(ts: seq<Token>, rs: seq<Redirect>, rest: seq<Token>)
    requires Redirs(ts, rs) && !Next(rest, "<>+")
    ensures PRedirs(ts + rest) == Some((rs, rest))
    decreases |rs|
  {
    if rs == [] {
      assert ts + rest == rest;
    } else {
      assert (ts + rest)[2..] == ts[2..] + rest;
      RedirsComplete(ts[2..], rs[1..], rest);
      assert [rs[0]] + rs[1..] == rs;
    }
  }

  predicate Stops(rest: seq<Token>, cs: string) {
    rest == [] || Next(rest, cs)
  }

  lemma CutAt(ts: seq<Token>, k: nat, rest: seq<Token>)
    requires k < |ts|
    ensures var more := ts[k..] + rest;
            more != [] && more[0] == ts[k] && more[1..] == ts[k + 1..] + rest && ts + rest == ts[..k] + more
    ensures k >= 1 ==> (ts + rest)[0] == ts[0] && (ts + rest)[1..] == ts[1..k] + (ts[k..] + rest)
  {
    assert (ts[k..] + rest)[1..] == ts[k + 1..] + rest;
    assert ts == ts[..k] + ts[k..];
    if k >= 1 {
      assert (ts + rest)[1..] == ts[1..k] + (ts[k..] + rest);
    }
  }

  lemma {:induction false} ItemsComplete(ts: seq<Token>, args: seq<Span>, rs: seq<Redirect>, rest: seq<Token>,
                                         argc: nat)
    requires Items(ts, args, rs) && Stops(rest, "|)&;") && argc + |args| < MAXARGS
    ensures var p := PRedirs(ts + rest);
            && p.Some?
            && var m := PItems(p.value.1, argc);
            && m.Some? && m.value.0 == args && p.value.0 + m.value.1 == rs && m.value.2 == rest
    decreases |ts|
  {
    hide PRedirs, PItems;
    if ts == [] {
      assert ts + rest == rest;
      NothingLeft(rest, argc);
    } else if ts[0].Word? {
      ItemsComplete(ts[1..], args[1..], rs, rest, argc + 1);
      TakeWord(ts[0], ts[1..] + rest, argc);
      assert ts + rest == [ts[0]] + (ts[1..] + rest) && args == [args[0]] + args[1..];
    } else {
      ItemsComplete(ts[2..], args, rs[1..], rest, argc);
      TakeRedir(ts[0], ts[1], ts[2..] + rest);
      assert ts + rest == [ts[0], ts[1]] + (ts[2..] + rest);
      var p := PRedirs(ts[2..] + rest).value;
      Regroup(rs, p.0, PItems(p.1, argc).value.1);
    }
  }

  lemma NothingLeft(rest: seq<Token>, argc: nat)
    requires Stops(rest, "|)&;")
    ensures PRedirs(rest) == Some(([], rest)) && PItems(rest, argc) == Some(([], [], rest))
  {
  }

  lemma Regroup(rs: seq<Redirect>, a: seq<Redirect>, b: seq<Redirect>)
    requires rs != [] && rs[1..] == a + b
    ensures [rs[0]] + a + b == rs
  {
  }

  lemma TakeWord(t: Token, ts: seq<Token>, argc: nat)
    requires t.Word? && argc + 1 < MAXARGS && PRedirs(ts).Some? && PItems(PRedirs(ts).value.1, argc + 1).Some?
    ensures PRedirs([t] + ts) == Some(([], [t] + ts))
    ensures var p := PRedirs(ts).value;
            var m := PItems(p.1, argc + 1).value;
            PItems([t] + ts, argc) == Some(([t.span] + m.0, p.0 + m.1, m.2))
  {
    assert ([t] + ts)[1..] == ts;
  }

  lemma TakeRedir(op: Token, file: Token, ts: seq<Token>)
    requires op.Sym? && IsRedirOp(op.c) && file.Word? && PRedirs(ts).Some?
    ensures PRedirs([op, file] + ts) == Some(([Redirect(op.c, file.span)] + PRedirs(ts).value.0, PRedirs(ts).value.1))
  {
    assert ([op, file] + ts)[2..] == ts;
  }

  lemma {:induction false} ExecComplete(ts: seq<Token>, cmd: Cmd, rest: seq<Token>)
    requires GExec(ts, cmd) && Stops(rest, "|)&;")
    ensures PExec(ts + rest) == Some(Parse(cmd, rest))
    decreases |ts|, 0
  {
    if args, rs :| Simple(ts, cmd, args, rs) {
      SimpleComplete(ts, cmd, args, rs, rest);
    } else {
      var k, c, rs :| Block(ts, k, cmd, c, rs) && GLine(ts[1..k], c);
      hide GExec, GLine, PRedirs, Redirs, Wrap, PLine, PItems;
      CutAt(ts, k, rest);
      LineComplete(ts[1..k], c, ts[k..] + rest);
      RedirsComplete(ts[k + 1..], rs, rest);
    }
  }

  lemma SimpleComplete(ts: seq<Token>, cmd: Cmd, args: seq<Span>, rs: seq<Redirect>, rest: seq<Token>)
    requires Simple(ts, cmd, args, rs) && Stops(rest, "|)&;")
    ensures PExec(ts + rest) == Some(Parse(cmd, rest))
  {
    ItemsComplete(ts, args, rs, rest, 0);
    assert ts == [] ==> ts + rest == rest;
    hide PRedirs, PItems, Wrap, PLine;
  }

  lemma {:induction false} PipeComplete(ts: seq<Token>, cmd: Cmd, rest: seq<Token>)
    requires GPipe(ts, cmd) && Stops(rest, ")&;")
    ensures PPipe(ts + rest) == Some(Parse(cmd, rest))
    decreases |ts|, 1
  {
    if GExec(ts, cmd) {
      ExecComplete(ts, cmd, rest);
    } else {
      var k :| 0 <= k < |ts| && ts[k] == Sym('|') && GExec(ts[..k], cmd.left) && GPipe(ts[k + 1..], cmd.right);
      hide GExec, GPipe, PExec;
      CutAt(ts, k, rest);
      ExecComplete(ts[..k], cmd.left, ts[k..] + rest);
      PipeComplete(ts[k + 1..], cmd.right, rest);
    }
  }

  lemma {:induction false} BackComplete(ts: seq<Token>, cmd: Cmd, rest: seq<Token>)
    requires GBack(ts, cmd) && Stops(rest, ")&;")
    ensures PPipe(ts + rest).Some? && var p := PPipe(ts + rest).value; PAmps(p.cmd, p.rest) == PAmps(cmd, rest)
    decreases |ts|, 2
  {
    if GPipe(ts, cmd) {
      PipeComplete(ts, cmd, rest);
    } else {
      var front, more := ts[..|ts| - 1], [Sym('&')] + rest;
      assert ts + rest == front + more;
      BackComplete(front, cmd.cmd, more);
      assert more[1..] == rest;
    }
  }

  lemma {:induction false} LineComplete(ts: seq<Token>, cmd: Cmd, rest: seq<Token>)
    requires GLine(ts, cmd) && Stops(rest, ")")
    ensures PLine(ts + rest) == Some(Parse(cmd, rest))
    decreases |ts|, 3
  {
    if GBack(ts, cmd) {
      BackComplete(ts, cmd, rest);
    } else {
      var k :| 0 <= k < |ts| && ts[k] == Sym(';') && GBack(ts[..k], cmd.left) && GLine(ts[k + 1..], cmd.right);
      hide GBack, GLine, PPipe;
      CutAt(ts, k, rest);
      BackComplete(ts[..k], cmd.left, ts[k..] + rest);
      LineComplete(ts[k + 1..], cmd.right, rest);
    }
  }

  /** The parser accepts a line exactly when the grammar has a tree for it, and finds that tree. */
  lemma ParsesExactly(ts: seq<Token>, cmd: Cmd)
    ensures PLine(ts) == Some(Parse(cmd, [])) <==> GLine(ts, cmd)
  {
    if PLine(ts) == Some(Parse(cmd, [])) {
      LineSound(ts);
      assert Used(ts, []) == ts;
    }
    if GLine(ts, cmd) {
      LineComplete(ts, cmd, []);
      assert ts + [] == ts;
    }
  }
}
