/** What the tree of a command line (src/sh.c) says about its tokens, read off the tree itself: every
    redirection with its file, mode and descriptor, every argument, both in the order of the line; and every
    tree is the parse of a line. */
module ShellTrees {
  import opened Common
  import opened ShellSyntax

  // ---------- redirections and arguments, off the tree and off the line ----------

  /** File, mode and descriptor. */
  datatype Opening = Opening(file: Span, mode: nat, fd: nat)

  /** The redirections of a tree: of a command from the innermost node out, of commands from left to right. */
  function Openings(cmd: Cmd): seq<Opening> {
    match cmd
    case Exec(_) => []
    case Redir(c, file, mode, fd) => Openings(c) + [Opening(file, mode, fd)]
    case Pipe(l, r) => Openings(l) + Openings(r)
    case List(l, r) => Openings(l) + Openings(r)
    case Back(c) => Openings(c)
  }

  function Args(cmd: Cmd): seq<Span> {
    match cmd
    case Exec(argv) => argv
    case Redir(c, _, _, _) => Args(c)
    case Pipe(l, r) => Args(l) + Args(r)
    case List(l, r) => Args(l) + Args(r)
    case Back(c) => Args(c)
  }

  /** An operator and the word behind it. */
  predicate Opens(ts: seq<Token>) {
    |ts| >= 2 && ts[0].Sym? && (ts[0].c == '<' || ts[0].c == '>' || ts[0].c == '+') && ts[1].Word?
  }

  /** < opens its file for reading as descriptor 0, > and >> for writing as descriptor 1. */
  function OpensAs(ts: seq<Token>): Opening
    requires Opens(ts)
  {
    if ts[0].c == '<' then Opening(ts[1].span, 0, 0) else Opening(ts[1].span, 0x201, 1)
  }

  /** The redirections of a line, in its order. */
  function LineOpens(ts: seq<Token>): seq<Opening> {
    if ts == [] then []
    else if Opens(ts) then [OpensAs(ts)] + LineOpens(ts[2..])
    else LineOpens(ts[1..])
  }

  /** The words of a line that are not files of redirections, in its order. */
  function LineArgs(ts: seq<Token>): seq<Span> {
    if ts == [] then []
    else if Opens(ts) then LineArgs(ts[2..])
    else (if ts[0].Word? then [ts[0].span] else []) + LineArgs(ts[1..])
  }

  /** A tree says of its redirections and arguments what the tokens say. */
  ghost predicate Tells(ts: seq<Token>, cmd: Cmd) {
    Openings(cmd) == LineOpens(ts) && Args(cmd) == LineArgs(ts)
  }

  predicate Breaks(t: Token) {
    t.Sym? && t.c != '<' && t.c != '>' && t.c != '+'
  }

  /** A symbol that is no redirection separates what is before from what is behind. */
  lemma {:induction false} SplitLine(a: seq<Token>, t: Token, b: seq<Token>)
    requires Breaks(t)
    ensures LineOpens(a + [t] + b) == LineOpens(a) + LineOpens(b) && LineArgs(a + [t] + b) == LineArgs(a) + LineArgs(b)
    decreases |a|
  {
    hide LineOpens, LineArgs;
    var ts := a + [t] + b;
    LineNext(ts);
    LineNext(a);
    if a == [] {
      assert ts == [t] + b && ts[1..] == b;
    } else if Opens(a) {
      SplitLine(a[2..], t, b);
      assert ts[2..] == a[2..] + [t] + b && Opens(ts);
    } else {
      SplitLine(a[1..], t, b);
      assert ts[1..] == a[1..] + [t] + b && !Opens(ts);
    }
  }

  lemma LineNext(ts: seq<Token>)
    ensures ts == [] ==> LineOpens(ts) == [] && LineArgs(ts) == []
    ensures Opens(ts) ==> LineOpens(ts) == [OpensAs(ts)] + LineOpens(ts[2..]) && LineArgs(ts) == LineArgs(ts[2..])
    ensures ts != [] && !Opens(ts) ==>
              && LineOpens(ts) == LineOpens(ts[1..])
              && LineArgs(ts) == (if ts[0].Word? then [ts[0].span] else []) + LineArgs(ts[1..])
  {
  }

  lemma SplitAt(ts: seq<Token>, k: nat)
    requires k < |ts| && Breaks(ts[k])
    ensures LineOpens(ts) == LineOpens(ts[..k]) + LineOpens(ts[k + 1..])
    ensures LineArgs(ts) == LineArgs(ts[..k]) + LineArgs(ts[k + 1..])
  {
    assert ts == ts[..k] + [ts[k]] + ts[k + 1..];
    SplitLine(ts[..k], ts[k], ts[k + 1..]);
  }

  lemma {:induction false} WrapTells(cmd: Cmd, rs: seq<Redirect>, ops: seq<Opening>)
    requires |ops| == |rs| && forall i :: 0 <= i < |rs| ==>
               ops[i] == if rs[i].op == '<' then Opening(rs[i].file, 0, 0) else Opening(rs[i].file, 0x201, 1)
    ensures Openings(Wrap(cmd, rs)) == Openings(cmd) + ops && Args(Wrap(cmd, rs)) == Args(cmd)
  {
    if rs == [] {
      assert ops == [];
    } else {
      WrapTells(cmd, rs[..|rs| - 1], ops[..|rs| - 1]);
      assert ops == ops[..|rs| - 1] + [ops[|rs| - 1]];
    }
  }

  function Asked(rs: seq<Redirect>): (ops: seq<Opening>)
    ensures |ops| == |rs| && forall i :: 0 <= i < |rs| ==>
              ops[i] == if rs[i].op == '<' then Opening(rs[i].file, 0, 0) else Opening(rs[i].file, 0x201, 1)
  {
    seq(|rs|, i requires 0 <= i < |rs| =>
      if rs[i].op == '<' then Opening(rs[i].file, 0, 0) else Opening(rs[i].file, 0x201, 1))
  }

  lemma {:induction false} RedirsTell(ts: seq<Token>, rs: seq<Redirect>)
    requires Redirs(ts, rs)
    ensures LineOpens(ts) == Asked(rs) && LineArgs(ts) == []
    decreases |rs|
  {
    if rs == [] {
      assert Asked(rs) == [];
    } else {
      RedirsTell(ts[2..], rs[1..]);
      assert Asked(rs) == [OpensAs(ts)] + Asked(rs[1..]);
    }
  }

  lemma {:induction false} ItemsTell(ts: seq<Token>, args: seq<Span>, rs: seq<Redirect>)
    requires Items(ts, args, rs)
    ensures LineOpens(ts) == Asked(rs) && LineArgs(ts) == args
    decreases |ts|
  {
    if ts == [] {
      assert Asked(rs) == [];
    } else if ts[0].Word? {
      ItemsTell(ts[1..], args[1..], rs);
      assert args == [args[0]] + args[1..];
    } else {
      ItemsTell(ts[2..], args, rs[1..]);
      assert Asked(rs) == [OpensAs(ts)] + Asked(rs[1..]);
    }
  }

  /** Of a simple command or a block. */
  lemma {:induction false} ExecTells(ts: seq<Token>, cmd: Cmd)
    requires GExec(ts, cmd)
    ensures Tells(ts, cmd)
    decreases |ts|, 0
  {
    if args, rs :| Simple(ts, cmd, args, rs) {
      ItemsTell(ts, args, rs);
      WrapTells(Exec(args), rs, Asked(rs));
      assert [] + Asked(rs) == Asked(rs);
    } else {
      var k, c, rs :| Block(ts, k, cmd, c, rs) && GLine(ts[1..k], c);
      hide GExec, GLine, Redirs, Wrap, Openings, Args, LineOpens, LineArgs;
      LineTells(ts[1..k], c);
      RedirsTell(ts[k + 1..], rs);
      WrapTells(c, rs, Asked(rs));
      SplitAt(ts, k);
      SplitAt(ts[..k], 0);
      assert ts[..k][..0] == [] && ts[..k][1..] == ts[1..k];
      NothingTold();
    }
  }

  lemma NothingTold()
    ensures LineOpens([]) == [] && LineArgs([]) == []
  {
  }

  lemma {:induction false} PipeTells(ts: seq<Token>, cmd: Cmd)
    requires GPipe(ts, cmd)
    ensures Tells(ts, cmd)
    decreases |ts|, 1
  {
    if GExec(ts, cmd) {
      ExecTells(ts, cmd);
    } else {
      var k :| 0 <= k < |ts| && ts[k] == Sym('|') && GExec(ts[..k], cmd.left) && GPipe(ts[k + 1..], cmd.right);
      hide GExec, LineOpens, LineArgs;
      ExecTells(ts[..k], cmd.left);
      PipeTells(ts[k + 1..], cmd.right);
      SplitAt(ts, k);
    }
  }

  lemma {:induction false} BackTells(ts: seq<Token>, cmd: Cmd)
    requires GBack(ts, cmd)
    ensures Tells(ts, cmd)
    decreases |ts|, 2
  {
    if GPipe(ts, cmd) {
      PipeTells(ts, cmd);
    } else {
      BackTells(ts[..|ts| - 1], cmd.cmd);
      hide GPipe, LineOpens, LineArgs;
      SplitAt(ts, |ts| - 1);
      assert ts[|ts|..] == [];
      NothingTold();
    }
  }

  /** The redirections of the tree are those of the line, in its order, each with the mode and the descriptor its
      operator asks for, and so are the arguments. */
  lemma {:induction false} LineTells(ts: seq<Token>, cmd: Cmd)
    requires GLine(ts, cmd)
    ensures Tells(ts, cmd)
    decreases |ts|, 3
  {
    if GBack(ts, cmd) {
      BackTells(ts, cmd);
    } else {
      var k :| 0 <= k < |ts| && ts[k] == Sym(';') && GBack(ts[..k], cmd.left) && GLine(ts[k + 1..], cmd.right);
      hide GBack, LineOpens, LineArgs;
      BackTells(ts[..k], cmd.left);
      LineTells(ts[k + 1..], cmd.right);
      SplitAt(ts, k);
    }
  }

  // ---------- every tree is the parse of a line ----------

  /** A tree the shell can run: no command has MAXARGS words, and every redirection is one of an operator. */
  predicate Proper(cmd: Cmd) {
    match cmd
    case Exec(argv) => |argv| < MAXARGS
    case Redir(c, _, mode, fd) => Proper(c) && ((mode == 0 && fd == 0) || (mode == 0x201 && fd == 1))
    case Pipe(l, r) => Proper(l) && Proper(r)
    case List(l, r) => Proper(l) && Proper(r)
    case Back(c) => Proper(c)
  }

  /** How loosely a command binds: redirections tightest, then |, &, and ; . */
  function Looseness(cmd: Cmd): nat {
    match cmd
    case Exec(_) => 0
    case Redir(_, _, _, _) => 0
    case Pipe(_, _) => 1
    case Back(_) => 2
    case List(_, _) => 3
  }

  /** A line for the tree: words, then redirections from the inside out; | between the sides of a pipe, ;
      between those of a list, & behind a background command, and parentheses where they are needed. */
  function Bare(cmd: Cmd): seq<Token>
    decreases cmd, 0
  {
    match cmd
    case Exec(argv) => seq(|argv|, i requires 0 <= i < |argv| => Word(argv[i]))
    case Redir(c, file, _, fd) => Form(c, 0) + [Sym(if fd == 0 then '<' else '>'), Word(file)]
    case Pipe(l, r) => Form(l, 0) + ([Sym('|')] + Form(r, 1))
    case Back(c) => Form(c, 2) + [Sym('&')]
    case List(l, r) => Form(l, 2) + ([Sym(';')] + Form(r, 3))
  }

  function Form(cmd: Cmd, level: nat): seq<Token>
    decreases cmd, 1
  {
    if Looseness(cmd) <= level then Bare(cmd) else [Sym('(')] + (Bare(cmd) + ([Sym(')')] + []))
  }

  /** ts is a line for cmd where commands bind at least as tightly as level says. */
  ghost predicate At(level: nat, ts: seq<Token>, cmd: Cmd) {
    if level == 0 then GExec(ts, cmd) else if level == 1 then GPipe(ts, cmd)
    else if level == 2 then GBack(ts, cmd) else GLine(ts, cmd)
  }

  lemma Lift(a: nat, b: nat, ts: seq<Token>, cmd: Cmd)
    requires a <= b && At(a, ts, cmd)
    ensures At(b, ts, cmd)
  {
    hide GExec;
    if a == 0 {
      assert GPipe(ts, cmd);
    }
    if a <= 1 {
      hide GPipe;
      assert GBack(ts, cmd);
    }
  }

  lemma {:induction false} ItemsMore(ts: seq<Token>, args: seq<Span>, rs: seq<Redirect>, r: Redirect)
    requires Items(ts, args, rs) && IsRedirOp(r.op)
    ensures Items(ts + [Sym(r.op), Word(r.file)], args, rs + [r])
    decreases |ts|
  {
    var more := [Sym(r.op), Word(r.file)];
    if ts == [] {
      assert ts + more == more && rs + [r] == [r] && more[2..] == [] && [r][1..] == [];
    } else if ts[0].Word? {
      ItemsMore(ts[1..], args[1..], rs, r);
      assert (ts + more)[1..] == ts[1..] + more;
    } else {
      ItemsMore(ts[2..], args, rs[1..], r);
      assert (ts + more)[2..] == ts[2..] + more && (rs + [r])[1..] == rs[1..] + [r];
    }
  }

  lemma {:induction false} RedirsMore(ts: seq<Token>, rs: seq<Redirect>, r: Redirect)
    requires Redirs(ts, rs) && IsRedirOp(r.op)
    ensures Redirs(ts + [Sym(r.op), Word(r.file)], rs + [r])
    decreases |rs|
  {
    var more := [Sym(r.op), Word(r.file)];
    if rs == [] {
      assert ts + more == more && rs + [r] == [r] && more[2..] == [] && [r][1..] == [];
    } else {
      RedirsMore(ts[2..], rs[1..], r);
      assert (ts + more)[2..] == ts[2..] + more && (rs + [r])[1..] == rs[1..] + [r];
    }
  }

  lemma WrapMore(cmd: Cmd, rs: seq<Redirect>, r: Redirect)
    ensures Wrap(cmd, rs + [r]) == RedirOf(Wrap(cmd, rs), r)
  {
    assert (rs + [r])[..|rs|] == rs;
  }

  /** One redirection more. */
  lemma ExecMore(ts: seq<Token>, cmd: Cmd, r: Redirect)
    requires GExec(ts, cmd) && IsRedirOp(r.op)
    ensures GExec(ts + [Sym(r.op), Word(r.file)], RedirOf(cmd, r))
  {
    var more := [Sym(r.op), Word(r.file)];
    if args, rs :| Simple(ts, cmd, args, rs) {
      hide GExec, Wrap;
      ItemsMore(ts, args, rs, r);
      WrapMore(Exec(args), rs, r);
      SimpleIs(ts + more, RedirOf(cmd, r), args, rs + [r]);
    } else {
      var k, c, rs :| Block(ts, k, cmd, c, rs) && GLine(ts[1..k], c);
      hide GExec, Wrap, GLine, Redirs;
      RedirsMore(ts[k + 1..], rs, r);
      WrapMore(c, rs, r);
      assert (ts + more)[k + 1..] == ts[k + 1..] + more && (ts + more)[1..k] == ts[1..k];
      BlockMore(ts + more, k, RedirOf(cmd, r), c, rs + [r]);
    }
  }

  lemma SimpleIs(ts: seq<Token>, cmd: Cmd, args: seq<Span>, rs: seq<Redirect>)
    requires Simple(ts, cmd, args, rs)
    ensures GExec(ts, cmd)
  {
  }

  lemma BlockMore(ts: seq<Token>, k: int, cmd: Cmd, c: Cmd, rs: seq<Redirect>)
    requires Block(ts, k, cmd, c, rs) && GLine(ts[1..k], c)
    ensures GExec(ts, cmd)
  {
  }

  lemma {:induction false} WordsParse(ts: seq<Token>, argv: seq<Span>)
    requires |ts| == |argv| && forall i :: 0 <= i < |argv| ==> ts[i] == Word(argv[i])
    ensures Items(ts, argv, [])
    decreases |argv|
  {
    if argv != [] {
      WordsParse(ts[1..], argv[1..]);
    }
  }

  lemma {:induction false} BareParses(cmd: Cmd)
    requires Proper(cmd)
    ensures At(Looseness(cmd), Bare(cmd), cmd)
    decreases cmd, 0
  {
    match cmd
    case Exec(argv) =>
      WordsParse(Bare(cmd), argv);
      SimpleIs(Bare(cmd), cmd, argv, []);
    case Redir(c, file, _, fd) =>
      FormParses(c, 0);
      ExecMore(Form(c, 0), c, Redirect(if fd == 0 then '<' else '>', file));
    case Pipe(l, r) =>
      FormParses(l, 0);
      FormParses(r, 1);
      PipeIs(Form(l, 0), l, Form(r, 1), r);
    case Back(c) =>
      FormParses(c, 2);
      BackIs(Form(c, 2), c);
    case List(l, r) =>
      FormParses(l, 2);
      FormParses(r, 3);
      LineIs(Form(l, 2), l, Form(r, 3), r);
  }

  lemma BackIs(ts: seq<Token>, cmd: Cmd)
    requires GBack(ts, cmd)
    ensures GBack(ts + [Sym('&')], Back(cmd))
  {
    assert (ts + [Sym('&')])[..|ts|] == ts;
  }

  lemma {:induction false} FormParses(cmd: Cmd, level: nat)
    requires Proper(cmd)
    ensures At(level, Form(cmd, level), cmd)
    decreases cmd, 1
  {
    BareParses(cmd);
    hide GExec, GPipe, GBack, GLine, Bare;
    if Looseness(cmd) <= level {
      Lift(Looseness(cmd), level, Bare(cmd), cmd);
    } else {
      Lift(Looseness(cmd), 3, Bare(cmd), cmd);
      NoRedirs(cmd);
      BlockIs(Bare(cmd), cmd, [], []);
      Lift(0, level, Form(cmd, level), cmd);
    }
  }

  lemma NoRedirs(cmd: Cmd)
    ensures Redirs([], []) && Wrap(cmd, []) == cmd
  {
  }

  /** Written out and parsed, every tree the shell can run comes back. */
  lemma RoundTrip(cmd: Cmd)
    requires Proper(cmd)
    ensures PLine(Form(cmd, 3)) == Some(Parse(cmd, []))
  {
    FormParses(cmd, 3);
    ParsesExactly(Form(cmd, 3), cmd);
  }

  lemma {:induction false} WrapProper(cmd: Cmd, rs: seq<Redirect>)
    requires Proper(cmd)
    ensures Proper(Wrap(cmd, rs))
  {
    if rs != [] {
      WrapProper(cmd, rs[..|rs| - 1]);
    }
  }

  lemma {:induction false} ExecProper(ts: seq<Token>, cmd: Cmd)
    requires GExec(ts, cmd)
    ensures Proper(cmd)
    decreases |ts|, 0
  {
    if args, rs :| Simple(ts, cmd, args, rs) {
      WrapProper(Exec(args), rs);
    } else {
      var k, c, rs :| Block(ts, k, cmd, c, rs) && GLine(ts[1..k], c);
      LineProper(ts[1..k], c);
      WrapProper(c, rs);
    }
  }

  lemma {:induction false} PipeProper(ts: seq<Token>, cmd: Cmd)
    requires GPipe(ts, cmd)
    ensures Proper(cmd)
    decreases |ts|, 1
  {
    if GExec(ts, cmd) {
      ExecProper(ts, cmd);
    } else {
      var k :| 0 <= k < |ts| && ts[k] == Sym('|') && GExec(ts[..k], cmd.left) && GPipe(ts[k + 1..], cmd.right);
      ExecProper(ts[..k], cmd.left);
      PipeProper(ts[k + 1..], cmd.right);
    }
  }

  lemma {:induction false} BackProper(ts: seq<Token>, cmd: Cmd)
    requires GBack(ts, cmd)
    ensures Proper(cmd)
    decreases |ts|, 2
  {
    if GPipe(ts, cmd) {
      PipeProper(ts, cmd);
    } else {
      BackProper(ts[..|ts| - 1], cmd.cmd);
    }
  }

  lemma {:induction false} LineProper(ts: seq<Token>, cmd: Cmd)
    requires GLine(ts, cmd)
    ensures Proper(cmd)
    decreases |ts|, 3
  {
    if GBack(ts, cmd) {
      BackProper(ts, cmd);
    } else {
      var k :| 0 <= k < |ts| && ts[k] == Sym(';') && GBack(ts[..k], cmd.left) && GLine(ts[k + 1..], cmd.right);
      BackProper(ts[..k], cmd.left);
      LineProper(ts[k + 1..], cmd.right);
    }
  }

  /** The trees the parser builds are exactly those. */
  lemma BuildsIff(cmd: Cmd)
    ensures (exists ts :: PLine(ts) == Some(Parse(cmd, []))) <==> Proper(cmd)
  {
    if ts :| PLine(ts) == Some(Parse(cmd, [])) {
      ParsesExactly(ts, cmd);
      LineProper(ts, cmd);
    }
    if Proper(cmd) {
      RoundTrip(cmd);
    }
  }
}
