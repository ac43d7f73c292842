/**
skipelem of src/fs.c: taking a path apart, one element at a time.
*/
module PathCode {
  import opened Common
  import opened DirModel

  const SLASH: byte := 47

  datatype Rest = End | At(pos: nat)

  /** The pieces of a text between slashes, empty ones included. */
  function Split(t: seq<byte>): (r: seq<seq<byte>>)
    ensures |r| > 0
  {
    if t == [] then [[]]
    else if t[0] == SLASH then [[]] + Split(t[1..])
    else [[t[0]] + Split(t[1..])[0]] + Split(t[1..])[1..]
  }

  function NonEmpty(ws: seq<seq<byte>>): seq<seq<byte>> {
    if ws == [] then [] else (if ws[0] == [] then [] else [ws[0]]) + NonEmpty(ws[1..])
  }

  /** The elements of a path. */
  function Elements(t: seq<byte>): seq<seq<byte>> {
    NonEmpty(Split(t))
  }

  /** The byte a C program reads at position i of the string. */
  function CharAt(t: seq<byte>, i: nat): byte
    requires i <= |t|
  {
    if i < |t| then t[i] else 0
  }

  /** skipelem at position i of a path: the next element goes to the name buffer, cut to DIRSIZ
      bytes; At(q) is where the element after it begins, and q is the end of the string exactly when
      there is none. */
  method Skipelem(t: seq<byte>, i: nat, buf: seq<byte>) returns (r: Rest, name: seq<byte>)
    requires 0 !in t && i <= |t| && |buf| == DIRSIZ
    ensures r == End <==> Elements(t[i..]) == []
    ensures r == End ==> name == buf
    ensures r.At? ==>
              && Elements(t[i..]) != [] && r.pos <= |t| && NameBuf(name) && Key(name) == Key(Elements(t[i..])[0])
              && Elements(t[r.pos..]) == Elements(t[i..])[1..]
              && (CharAt(t, r.pos) == 0 <==> |Elements(t[i..])| == 1) && CharAt(t, r.pos) != SLASH
  {
    hide Elements, Key;
    var path := SkipSlashes(t, i);
    if CharAt(t, path) == 0 {
      NoElements();
      assert t[path..] == [];
      return End, buf;
    }
    var s := path;
    while CharAt(t, path) != SLASH && CharAt(t, path) != 0
      invariant s <= path <= |t| && SLASH !in t[s..path]
      decreases |t| - path
    {
      path := path + 1;
    }
    ghost var w := t[s..path];
    assert t[s..] == w + t[path..];
    FirstElement(w, t[path..]);
    var len := path - s;
    if len >= DIRSIZ {
      name := t[s..s + DIRSIZ];
    } else {
      name := t[s..s + len] + buf[len..];
      name := name[len := 0];
    }
    NameIs(w, name);
    path := SkipSlashes(t, path);
    LastElement(t[path..]);
    return At(path), name;
  }

  /** while(*path == '/') path++ */
  method SkipSlashes(t: seq<byte>, i: nat) returns (path: nat)
    requires 0 !in t && i <= |t|
    ensures i <= path <= |t| && CharAt(t, path) != SLASH && Elements(t[path..]) == Elements(t[i..])
  {
    path := i;
    while CharAt(t, path) == SLASH
      invariant i <= path <= |t| && Elements(t[path..]) == Elements(t[i..])
      decreases |t| - path
    {
      assert t[path..] == [SLASH] + t[path + 1..];
      SkipOne(t[path + 1..]);
      path := path + 1;
    }
  }

  lemma SkipOne(t: seq<byte>)
    ensures Elements([SLASH] + t) == Elements(t)
  {
    assert ([SLASH] + t)[1..] == t;
    assert ([[]] + Split(t))[1..] == Split(t);
  }

  lemma NoElements()
    ensures Elements([]) == []
  {
  }

  lemma {:induction false} SplitWord(w: seq<byte>, rest: seq<byte>)
    requires SLASH !in w
    ensures Split(w + rest) == [w + Split(rest)[0]] + Split(rest)[1..]
  {
    if w == [] {
      assert w + rest == rest && w + Split(rest)[0] == Split(rest)[0];
    } else {
      assert (w + rest)[1..] == w[1..] + rest;
      SplitWord(w[1..], rest);
      assert [w[0]] + (w[1..] + Split(rest)[0]) == w + Split(rest)[0];
    }
  }

  lemma FirstElement(w: seq<byte>, rest: seq<byte>)
    requires SLASH !in w && w != [] && (rest == [] || rest[0] == SLASH)
    ensures Elements(w + rest) == [w] + Elements(rest)
  {
    SplitWord(w, rest);
    assert Split(rest)[0] == [] && w + [] == w;
    assert Split(w + rest)[1..] == Split(rest)[1..];
  }

  lemma LastElement(t: seq<byte>)
    requires t == [] || t[0] != SLASH
    ensures Elements(t) == [] <==> t == []
  {
    if t != [] {
      assert Split(t)[0] != [];
    }
  }

  lemma {:induction false} CutWord(w: seq<byte>, z: seq<byte>, n: nat)
    requires 0 !in w && (if |w| < n then |z| > |w| && z[..|w|] == w && z[|w|] == 0 else |z| >= n && z[..n] == w[..n])
    ensures Cut(z, n) == Cut(w, n)
    decreases n
  {
    if n > 0 && w != [] {
      assert z[0] == w[0];
      assert |w| < n ==> z[1..][..|w| - 1] == w[1..] && z[1..][|w| - 1] == 0;
      assert |w| >= n ==> z[1..][..n - 1] == w[1..][..n - 1];
      CutWord(w[1..], z[1..], n - 1);
    }
  }

  lemma NameIs(w: seq<byte>, name: seq<byte>)
    requires 0 !in w && |name| == DIRSIZ
    requires if |w| < DIRSIZ then name[..|w|] == w && name[|w|] == 0 else name == w[..DIRSIZ]
    ensures Key(name) == Key(w)
  {
    assert name[..DIRSIZ] == name;
    CutWord(w, name, DIRSIZ);
  }
}
