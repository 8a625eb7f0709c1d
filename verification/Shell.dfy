/** The lexer, parser and string termination of user/sh.c, over the line buffer they
    share. */
module Shell {
  import opened ShellGrammar

  // ---------------------------------------------------------------- tokens of a line

  predicate Blank(c: char) {
    c in {' ', '\t', '\r', '\n', '\U{0B}'}
  }

  predicate Symbol(c: char) {
    c in {'<', '|', '>', '&', ';', '(', ')'}
  }

  predicate WordChar(c: char) {
    !Blank(c) && !Symbol(c)
  }

  /** The first character from i on that is not blank. */
  function SkipBlank(t: string, i: nat): (j: nat)
    requires i <= |t|
    ensures i <= j <= |t| && (j < |t| ==> !Blank(t[j])) && forall k :: i <= k < j ==> Blank(t[k])
    decreases |t| - i
  {
    if i < |t| && Blank(t[i]) then SkipBlank(t, i + 1) else i
  }

  /** The end of the word at i. */
  function WordEnd(t: string, i: nat): (j: nat)
    requires i <= |t|
    ensures i <= j <= |t| && (j < |t| ==> !WordChar(t[j])) && forall k :: i <= k < j ==> WordChar(t[k])
    decreases |t| - i
  {
    if i < |t| && WordChar(t[i]) then WordEnd(t, i + 1) else i
  }

  predicate AppendAt(t: string, j: nat) {
    j + 1 < |t| && t[j] == '>' && t[j + 1] == '>'
  }

  function TokenAt(t: string, j: nat): Token
    requires j < |t|
  {
    if AppendAt(t, j) then Append else if Symbol(t[j]) then Sym(t[j]) else Text(Word(j, WordEnd(t, j)))
  }

  function TokenEnd(t: string, j: nat): (e: nat)
    requires j < |t| && !Blank(t[j])
    ensures j < e <= |t|
  {
    if AppendAt(t, j) then j + 2 else if Symbol(t[j]) then j + 1 else WordEnd(t, j)
  }

  /** The tokens of t from i on. */
  function Lex(t: string, i: nat): seq<Token>
    requires i <= |t|
    decreases |t| - i
  {
    var j := SkipBlank(t, i);
    if j == |t| then [] else [TokenAt(t, j)] + Lex(t, TokenEnd(t, j))
  }

  /** A longest run of word characters. */
  predicate IsWord(t: string, w: Word) {
    && w.q < w.e <= |t| && (forall k :: w.q <= k < w.e ==> WordChar(t[k]))
    && (w.e < |t| ==> !WordChar(t[w.e]))
  }

  lemma {:induction false} LexedWords(t: string, i: nat, tok: Token)
    requires i <= |t| && tok in Lex(t, i)
    ensures tok.Text? ==> IsWord(t, tok.w)
    ensures tok.Sym? ==> Symbol(tok.c)
    decreases |t| - i
  {
    var j := SkipBlank(t, i);
    if tok != TokenAt(t, j) {
      LexedWords(t, TokenEnd(t, j), tok);
    }
  }

  /** The characters of a token. */
  function Spelling(t: string, tok: Token): string {
    match tok
    case Sym(c) => [c]
    case Append => ">>"
    case Text(w) => if w.q <= w.e <= |t| then t[w.q..w.e] else ""
  }

  function Spelled(t: string, ts: seq<Token>): string {
    if ts == [] then "" else Spelling(t, ts[0]) + Spelled(t, ts[1..])
  }

  function NonBlank(t: string): string {
    if t == "" then "" else (if Blank(t[0]) then "" else [t[0]]) + NonBlank(t[1..])
  }

  lemma {:induction false} NonBlankSkip(t: string, i: nat, j: nat)
    requires i <= j <= |t| && forall k :: i <= k < j ==> Blank(t[k])
    ensures NonBlank(t[i..]) == NonBlank(t[j..])
    decreases j - i
  {
    if i < j {
      assert t[i..][0] == t[i] && t[i..][1..] == t[i + 1..];
      NonBlankSkip(t, i + 1, j);
    }
  }

  lemma {:induction false} NonBlankKeep(t: string, i: nat, j: nat)
    requires i <= j <= |t| && forall k :: i <= k < j ==> !Blank(t[k])
    ensures NonBlank(t[i..]) == t[i..j] + NonBlank(t[j..])
    decreases j - i
  {
    if i < j {
      assert t[i..][0] == t[i] && t[i..][1..] == t[i + 1..];
      NonBlankKeep(t, i + 1, j);
      assert t[i..j] == [t[i]] + t[i + 1..j];
    }
  }

  lemma TwoChars(t: string, i: nat, j: nat, k: nat)
    requires j == i + 1 && k == j + 1 && k <= |t|
    ensures t[i..k] == [t[i], t[j]]
  {
  }

  /** A token is spelled by the characters it was read from. */
  lemma TokenSpelling(t: string, j: nat)
    requires j < |t| && !Blank(t[j])
    ensures Spelling(t, TokenAt(t, j)) == t[j..TokenEnd(t, j)] && forall k :: j <= k < TokenEnd(t, j) ==> !Blank(t[k])
  {
    if AppendAt(t, j) {
      TwoChars(t, j, j + 1, j + 2);
    }
  }

  /** Lexing drops the blanks and nothing else. */
  lemma {:induction false} LexKeepsAll(t: string, i: nat)
    requires i <= |t|
    ensures Spelled(t, Lex(t, i)) == NonBlank(t[i..])
    decreases |t| - i
  {
    var j := SkipBlank(t, i);
    NonBlankSkip(t, i, j);
    if j < |t| {
      var e := TokenEnd(t, j);
      TokenSpelling(t, j);
      NonBlankKeep(t, j, e);
      LexKeepsAll(t, e);
      assert Lex(t, i)[1..] == Lex(t, e);
    }
  }

  lemma LexSkip(t: string, i: nat)
    requires i <= |t|
    ensures Lex(t, SkipBlank(t, i)) == Lex(t, i)
  {
  }

  /** What a token is to gettoken's callers. */
  function Kind(t: Token): char {
    match t case Sym(c) => c case Append => '+' case Text(_) => 'a'
  }

  lemma PeekStarts(t: string, j: nat, cs: set<char>)
    requires j <= |t| && (j < |t| ==> !Blank(t[j])) && cs <= {'|', '(', ')', '&', ';'}
    ensures (j < |t| && t[j] in cs) <==> Starts(Lex(t, j), cs)
  {
  }

  lemma PeekRedir(t: string, j: nat)
    requires j <= |t| && (j < |t| ==> !Blank(t[j]))
    ensures (j < |t| && t[j] in {'<', '>'}) <==> StartsRedir(Lex(t, j))
  {
  }

  // ---------------------------------------------------------------- partial results

  function After<T>(xs: seq<T>, r: Parsed<seq<T>>): Parsed<seq<T>> {
    if r.Panic? then Panic else Parsed(xs + r.value, r.rest)
  }

  lemma AfterNone<T>(r: Parsed<seq<T>>)
    ensures After([], r) == r
  {
    if r.Parsed? {
      assert [] + r.value == r.value;
    }
  }

  lemma AfterCons<T>(xs: seq<T>, x: T, r: Parsed<seq<T>>)
    ensures After(xs, Cons(x, r)) == After(xs + [x], r)
  {
    if r.Parsed? {
      assert xs + ([x] + r.value) == xs + [x] + r.value;
    }
  }

  lemma AfterAfter<T>(xs: seq<T>, ys: seq<T>, r: Parsed<seq<T>>)
    ensures After(xs, After(ys, r)) == After(xs + ys, r)
  {
    if r.Parsed? {
      assert xs + (ys + r.value) == xs + ys + r.value;
    }
  }

  lemma AfterPanic<T>(xs: seq<T>, r: Parsed<seq<T>>)
    ensures After(xs, r).Panic? <==> r.Panic?
  {
  }

  lemma WrappedNone(c: Cmd)
    ensures Wrapped(c, []) == c
  {
  }

  lemma WrappedMore(c: Cmd, rs: seq<Redir>, r: Redir)
    ensures Wrapped(c, rs + [r]) == Redirect(Wrapped(c, rs), r)
  {
    assert (rs + [r])[..|rs|] == rs;
  }

  lemma {:induction false} WrappedTwice(c: Cmd, rs: seq<Redir>, qs: seq<Redir>)
    ensures Wrapped(Wrapped(c, rs), qs) == Wrapped(c, rs + qs)
    decreases |qs|
  {
    if qs == [] {
      assert rs + qs == rs;
    } else {
      var n := |qs| - 1;
      WrappedTwice(c, rs, qs[..n]);
      assert (rs + qs)[..|rs| + n] == rs + qs[..n];
    }
  }

  function Tos(rs: seq<Redir>): seq<Part> {
    if rs == [] then [] else [To(rs[0])] + Tos(rs[1..])
  }

  lemma Joining<T>(a: seq<T>, b: seq<T>, c: seq<T>)
    ensures (a + b) + c == a + (b + c)
  {
  }

  lemma {:induction false} ArgsSplit(a: seq<Part>, b: seq<Part>)
    ensures ArgsOf(a + b) == ArgsOf(a) + ArgsOf(b)
    decreases |a|
  {
    if a == [] {
      assert a + b == b;
    } else {
      ArgsSplit(a[1..], b);
      assert (a + b)[0] == a[0] && (a + b)[1..] == a[1..] + b;
      Joining(if a[0].Arg? then [a[0].w] else [], ArgsOf(a[1..]), ArgsOf(b));
    }
  }

  lemma {:induction false} RedirsSplit(a: seq<Part>, b: seq<Part>)
    ensures RedirsOf(a + b) == RedirsOf(a) + RedirsOf(b)
    decreases |a|
  {
    if a == [] {
      assert a + b == b;
    } else {
      RedirsSplit(a[1..], b);
      assert (a + b)[0] == a[0] && (a + b)[1..] == a[1..] + b;
      Joining(if a[0].To? then [a[0].r] else [], RedirsOf(a[1..]), RedirsOf(b));
    }
  }

  lemma {:induction false} TosParts(rs: seq<Redir>)
    ensures ArgsOf(Tos(rs)) == [] && RedirsOf(Tos(rs)) == rs
    decreases |rs|
  {
    if rs != [] {
      TosParts(rs[1..]);
      assert Tos(rs)[1..] == Tos(rs[1..]);
      assert rs == [rs[0]] + rs[1..];
    }
  }

  /** Redirections inside a simple command. */
  lemma {:induction false} RedirsThenParts(ts: seq<Token>, argc: nat)
    ensures var r := ShellGrammar.ParseRedirs(ts);
            && (r.Panic? ==> ParseParts(ts, argc).Panic?)
            && (r.Parsed? ==> ParseParts(ts, argc) == After(Tos(r.value), ParseParts(r.rest, argc)) && !StartsRedir(r.rest))
    decreases |ts|
  {
    var r := ShellGrammar.ParseRedirs(ts);
    if !StartsRedir(ts) {
      AfterNone(ParseParts(ts, argc));
    } else if |ts| > 1 && ts[1].Text? {
      RedirsThenParts(ts[2..], argc);
      var q := ShellGrammar.ParseRedirs(ts[2..]);
      if q.Parsed? {
        var x := To(Redir(ModeOf(ts[0]).value, ts[1].w));
        assert r.value[1..] == q.value;
        AfterCons([], x, After(Tos(q.value), ParseParts(q.rest, argc)));
        AfterAfter([x], Tos(q.value), ParseParts(q.rest, argc));
        assert [] + [x] == [x];
      }
    }
  }

  /** The words of a tree. */
  function WordsOf(c: Cmd): set<Word> {
    match c
    case Exec(args) => set w | w in args
    case Redirect(d, r) => WordsOf(d) + {r.file}
    case Pipe(l, r) => WordsOf(l) + WordsOf(r)
    case List(l, r) => WordsOf(l) + WordsOf(r)
    case Back(d) => WordsOf(d)
  }

  /** Storing the next argument in the exec node inside a chain of redirections. */
  function WithArg(c: Cmd, w: Word): Cmd {
    match c
    case Exec(args) => Exec(args + [w])
    case Redirect(d, r) => Redirect(WithArg(d, w), r)
    case _ => c
  }

  lemma {:induction false} WithArgWrapped(args: seq<Word>, rs: seq<Redir>, w: Word)
    ensures WithArg(Wrapped(Exec(args), rs), w) == Wrapped(Exec(args + [w]), rs)
    decreases |rs|
  {
    if rs != [] {
      WithArgWrapped(args, rs[..|rs| - 1], w);
    }
  }

  lemma RedirStep(ts: seq<Token>)
    requires StartsRedir(ts)
    ensures |ts| == 1 || !ts[1].Text? ==> ShellGrammar.ParseRedirs(ts).Panic?
    ensures |ts| > 1 && ts[1].Text? ==>
              ShellGrammar.ParseRedirs(ts) == Cons(Redir(ModeOf(ts[0]).value, ts[1].w), ShellGrammar.ParseRedirs(ts[1..][1..]))
  {
    if |ts| > 1 {
      assert ts[1..][1..] == ts[2..];
    }
  }

  lemma RedirStop(done: seq<Redir>, ts: seq<Token>)
    requires !StartsRedir(ts)
    ensures After(done, ShellGrammar.ParseRedirs(ts)) == Parsed(done, ts)
  {
    assert done + [] == done;
  }

  /** The loop over the arguments of a simple command stops here. */
  lemma PartsStop(done: seq<Part>, ts: seq<Token>, argc: nat)
    requires ts == [] || Starts(ts, {'|', ')', '&', ';'})
    ensures After(done, ParseParts(ts, argc)) == Parsed(done, ts)
  {
    assert done + [] == done;
  }

  lemma PartsRound(done: seq<Part>, ts: seq<Token>, argc: nat)
    requires ts != [] && !Starts(ts, {'|', ')', '&', ';'}) && !StartsRedir(ts)
    ensures !ts[0].Text? || argc + 1 >= MAXARGS ==> After(done, ParseParts(ts, argc)).Panic?
    ensures ts[0].Text? && argc + 1 < MAXARGS ==>
              var r := ShellGrammar.ParseRedirs(ts[1..]);
              && (r.Panic? ==> After(done, ParseParts(ts, argc)).Panic?)
              && (r.Parsed? ==>
                    && After(done, ParseParts(ts, argc)) == After(done + [Arg(ts[0].w)] + Tos(r.value), ParseParts(r.rest, argc + 1))
                    && !StartsRedir(r.rest))
  {
    if ts[0].Text? && argc + 1 < MAXARGS {
      var r := ShellGrammar.ParseRedirs(ts[1..]);
      RedirsThenParts(ts[1..], argc + 1);
      assert ParseParts(ts, argc) == Cons(Arg(ts[0].w), ParseParts(ts[1..], argc + 1));
      AfterCons(done, Arg(ts[0].w), ParseParts(ts[1..], argc + 1));
      if r.Parsed? {
        AfterAfter(done + [Arg(ts[0].w)], Tos(r.value), ParseParts(r.rest, argc + 1));
      }
    }
  }

  lemma TreeStart(rs: seq<Redir>)
    ensures Wrapped(Exec([]), rs) == Wrapped(Exec(ArgsOf(Tos(rs))), RedirsOf(Tos(rs))) && ArgsOf(Tos(rs)) == []
  {
    TosParts(rs);
  }

  /** One more argument and the redirections after it. */
  lemma TreeRound(done: seq<Part>, w: Word, rs: seq<Redir>, next: seq<Part>)
    requires next == done + [Arg(w)] + Tos(rs)
    ensures Wrapped(WithArg(Wrapped(Exec(ArgsOf(done)), RedirsOf(done)), w), rs) == Wrapped(Exec(ArgsOf(next)), RedirsOf(next))
    ensures |ArgsOf(next)| == |ArgsOf(done)| + 1
  {
    hide ArgsOf, RedirsOf, Tos, Wrapped, WithArg;
    TosParts(rs);
    OnePart(w);
    ArgsSplit(done, [Arg(w)]);
    RedirsSplit(done, [Arg(w)]);
    ArgsSplit(done + [Arg(w)], Tos(rs));
    RedirsSplit(done + [Arg(w)], Tos(rs));
    WithArgWrapped(ArgsOf(done), RedirsOf(done), w);
    WrappedTwice(Exec(ArgsOf(done) + [w]), RedirsOf(done), rs);
    assert ArgsOf(done) + [w] + [] == ArgsOf(done) + [w];
    assert RedirsOf(done) + [] + rs == RedirsOf(done) + rs;
  }

  lemma OnePart(w: Word)
    ensures ArgsOf([Arg(w)]) == [w] && RedirsOf([Arg(w)]) == []
  {
  }

  // ---------------------------------------------------------------- the words of a line

  predicate IsText(ts: seq<Token>, w: Word) {
    Text(w) in ts
  }

  lemma {:induction false} RedirsWords(rs: seq<Redir>, c: Cmd, w: Word)
    ensures w in WordsOf(Wrapped(c, rs)) <==> w in WordsOf(c) || exists r :: r in rs && r.file == w
    decreases |rs|
  {
    if rs != [] {
      var n := |rs| - 1;
      RedirsWords(rs[..n], c, w);
      assert rs == rs[..n] + [rs[n]];
    }
  }

  lemma {:induction false} RedirsTexts(rs: seq<Redir>, w: Word)
    ensures IsText(RedirsTokens(rs), w) <==> exists r :: r in rs && r.file == w
    decreases |rs|
  {
    if rs != [] {
      RedirsTexts(rs[1..], w);
      assert rs == [rs[0]] + rs[1..];
    }
  }

  lemma {:induction false} PartsTexts(ps: seq<Part>, w: Word)
    ensures IsText(PartsTokens(ps), w) <==> w in ArgsOf(ps) || exists r :: r in RedirsOf(ps) && r.file == w
    decreases |ps|
  {
    if ps != [] {
      PartsTexts(ps[1..], w);
    }
  }

  lemma {:induction false} ElementWords(e: Element, w: Word)
    ensures w in WordsOf(ElementTree(e)) <==> IsText(ElementTokens(e), w)
    decreases e
  {
    match e
    case Simple(parts) =>
      RedirsWords(RedirsOf(parts), Exec(ArgsOf(parts)), w);
      PartsTexts(parts, w);
    case Block(line, redirs) =>
      RedirsWords(redirs, LineTree(line), w);
      RedirsTexts(redirs, w);
      LineWords(line, w);
  }

  lemma {:induction false} PipelineWords(p: Pipeline, w: Word)
    ensures w in WordsOf(PipelineTree(p)) <==> IsText(PipelineTokens(p), w)
    decreases p
  {
    ElementWords(p.first, w);
    if p.more.Some? {
      PipelineWords(p.more.value, w);
    }
  }

  lemma {:induction false} BacksWords(c: Cmd, n: nat, w: Word)
    ensures WordsOf(Backs(c, n)) == WordsOf(c) && !IsText(Amps(n), w)
    decreases n
  {
    if n > 0 {
      BacksWords(c, n - 1, w);
    }
  }

  /** The words of the tree are the words of the line. */
  lemma {:induction false} LineWords(l: Line, w: Word)
    ensures w in WordsOf(LineTree(l)) <==> IsText(LineTokens(l), w)
    decreases l
  {
    PipelineWords(l.first, w);
    BacksWords(PipelineTree(l.first), l.amps, w);
    if l.more.Some? {
      LineWords(l.more.value, w);
    }
  }

  // ---------------------------------------------------------------- termination of strings

  /** The string at i: everything before the next NUL. */
  function StringAt(b: seq<char>, i: nat): string
    decreases |b| - i
  {
    if i < |b| && b[i] != '\0' then [b[i]] + StringAt(b, i + 1) else ""
  }

  lemma {:induction false} StringUpTo(b: seq<char>, i: nat, e: nat)
    requires i <= e < |b| && b[e] == '\0' && forall k :: i <= k < e ==> b[k] != '\0'
    ensures StringAt(b, i) == b[i..e]
    decreases e - i
  {
    if i < e {
      StringUpTo(b, i + 1, e);
    }
  }

  predicate IsEnd(ws: set<Word>, i: nat) {
    exists w :: w in ws && w.e == i
  }

  /** The buffer with a NUL at the end of every word. */
  ghost predicate Terminated(b: seq<char>, ws: set<Word>, b': seq<char>) {
    && |b'| == |b|
    && forall i: nat :: i < |b| ==> b'[i] == if IsEnd(ws, i) then '\0' else b[i]
  }

  lemma TerminatedTwice(b: seq<char>, us: set<Word>, b': seq<char>, vs: set<Word>, b'': seq<char>)
    requires Terminated(b, us, b') && Terminated(b', vs, b'')
    ensures Terminated(b, us + vs, b'')
  {
    forall i: nat | i < |b| ensures b''[i] == if IsEnd(us + vs, i) then '\0' else b[i] {
      assert IsEnd(us + vs, i) <==> IsEnd(us, i) || IsEnd(vs, i) by {
        if IsEnd(us, i) {
          var w :| w in us && w.e == i;
          assert w in us + vs;
        }
        if IsEnd(vs, i) {
          var w :| w in vs && w.e == i;
          assert w in us + vs;
        }
      }
    }
  }

  lemma TerminatedNone(b: seq<char>)
    ensures Terminated(b, {}, b)
  {
  }

  lemma TerminatedOne(b: seq<char>, w: Word)
    requires w.e < |b|
    ensures Terminated(b, {w}, b[w.e := '\0'])
  {
    assert w in {w};
    assert IsEnd({w}, w.e);
  }

  lemma TerminatedArgs(b: seq<char>, args: seq<Word>, i: nat, b': seq<char>, j: nat)
    requires i < |args| && j == i + 1 && args[i].e < |b| && Terminated(b, WordsOf(Exec(args[..i])), b')
    ensures Terminated(b, WordsOf(Exec(args[..j])), b'[args[i].e := '\0'])
  {
    hide Terminated;
    assert |b'| == |b| by {
      TerminatedLength(b, WordsOf(Exec(args[..i])), b');
    }
    TerminatedOne(b', args[i]);
    TerminatedTwice(b, WordsOf(Exec(args[..i])), b', {args[i]}, b'[args[i].e := '\0']);
    assert args[..j] == args[..i] + [args[i]];
    assert WordsOf(Exec(args[..j])) == WordsOf(Exec(args[..i])) + {args[i]};
  }

  lemma TerminatedLength(b: seq<char>, ws: set<Word>, b': seq<char>)
    requires Terminated(b, ws, b')
    ensures |b'| == |b|
  {
  }

  /** Terminating all words leaves each of them as it was read: no word ends inside
      another. */
  lemma WordsSurvive(b: seq<char>, t: string, ws: set<Word>, b': seq<char>, w: Word)
    requires |t| < |b| && b[..|t|] == t && '\0' !in t && w in ws && (forall v :: v in ws ==> IsWord(t, v)) && Terminated(b, ws, b')
    ensures w.q <= w.e <= |t| && StringAt(b', w.q) == t[w.q..w.e]
  {
    assert IsWord(t, w) && IsEnd(ws, w.e);
    forall k: nat | w.q <= k < w.e ensures b'[k] == t[k] != '\0' {
      assert WordChar(t[k]) && b[k] == b[..|t|][k] == t[k];
      forall v | v in ws ensures v.e != k {
        assert IsWord(t, v);
      }
    }
    StringUpTo(b', w.q, w.e);
    assert b'[w.q..w.e] == t[w.q..w.e];
  }

  // ---------------------------------------------------------------- the program

  class Parser {
    const buf: array<char>
    const es: nat
    var s: nat

    ghost predicate Valid()
      reads this, buf
    {
      s <= es < buf.Length && buf[es] == '\0' && forall i :: 0 <= i < es ==> buf[i] != '\0'
    }

    ghost function Input(): (t: string)
      requires es < buf.Length
      reads buf
      ensures |t| == es
    {
      buf[..es]
    }

    ghost function Rest(): seq<Token>
      requires Valid()
      reads this, buf
    {
      Lex(Input(), s)
    }

    constructor (buf: array<char>, es: nat)
      requires es < buf.Length && buf[es] == '\0' && forall i :: 0 <= i < es ==> buf[i] != '\0'
      ensures Valid() && this.buf == buf && this.es == es && s == 0
    {
      this.buf, this.es, s := buf, es, 0;
    }

    /** The position of the first character from i on that is not blank. */
    method SkipFrom(i: nat) returns (j: nat)
      requires Valid() && i <= es
      ensures j == SkipBlank(Input(), i)
    {
      j := i;
      while j < es && Blank(buf[j])
        invariant i <= j <= es && SkipBlank(Input(), i) == SkipBlank(Input(), j)
      {
        j := j + 1;
      }
    }

    method WordFrom(i: nat) returns (j: nat)
      requires Valid() && i <= es
      ensures j == WordEnd(Input(), i)
    {
      j := i;
      while j < es && !Blank(buf[j]) && !Symbol(buf[j])
        invariant i <= j <= es && WordEnd(Input(), i) == WordEnd(Input(), j)
      {
        j := j + 1;
      }
    }

    /** gettoken: take the next token; NUL at the end of the input. */
    method GetToken() returns (tok: char, q: nat, eq: nat)
      requires Valid()
      modifies this`s
      ensures Valid() && s >= old(s) && (tok == '\0' <==> old(Rest()) == [])
      ensures tok == '\0' ==> Rest() == []
      ensures tok != '\0' ==> tok == Kind(old(Rest())[0]) && Rest() == old(Rest())[1..] && s > old(s)
      ensures tok == 'a' <==> old(Rest()) != [] && old(Rest())[0].Text?
      ensures tok == 'a' ==> old(Rest())[0] == Text(Word(q, eq))
    {
      ghost var t := Input();
      q := SkipFrom(s);
      var i := q;
      tok := buf[i];
      LexSkip(t, s);
      if tok == '\0' {
        assert i == es;
      } else if tok in {'|', '(', ')', ';', '&', '<'} {
        i := i + 1;
      } else if tok == '>' {
        i := i + 1;
        if buf[i] == '>' {
          tok := '+';
          i := i + 1;
        }
      } else {
        tok := 'a';
        i := WordFrom(i);
      }
      eq := i;
      assert q < es ==> eq == TokenEnd(t, q) && tok == Kind(TokenAt(t, q));
      LexSkip(t, eq);
      s := SkipFrom(i);
    }

    /** peek: is the next character one of toks? */
    method Peek(toks: set<char>) returns (found: bool)
      requires Valid() && '\0' !in toks
      modifies this`s
      ensures Valid() && s >= old(s) && Rest() == old(Rest())
      ensures toks <= {'|', '(', ')', '&', ';'} ==> (found <==> Starts(Rest(), toks))
      ensures toks == {'<', '>'} ==> (found <==> StartsRedir(Rest()))
      ensures toks == {} ==> (s == es <==> Rest() == [])
    {
      LexSkip(Input(), s);
      s := SkipFrom(s);
      found := buf[s] != '\0' && buf[s] in toks;
      PeekRedir(Input(), s);
      if toks <= {'|', '(', ')', '&', ';'} {
        PeekStarts(Input(), s, toks);
      }
    }

    /** parseredirs: wrap the command in the redirections that follow. */
    method ParseRedirs(cmd: Cmd) returns (r: Option<Cmd>)
      requires Valid()
      modifies this`s
      ensures Valid() && s >= old(s)
      ensures r.None? <==> ShellGrammar.ParseRedirs(old(Rest())).Panic?
      ensures r.Some? ==> var p := ShellGrammar.ParseRedirs(old(Rest())); r.value == Wrapped(cmd, p.value) && Rest() == p.rest
    {
      hide ShellGrammar.ParseRedirs, Lex, Wrapped, After, Cons;
      WrappedNone(cmd);
      var c := cmd;
      ghost var done: seq<Redir> := [];
      ghost var ts := Rest();
      AfterNone(ShellGrammar.ParseRedirs(ts));
      var more := Peek({'<', '>'});
      while more
        invariant Valid() && s >= old(s) && c == Wrapped(cmd, done) && (more <==> StartsRedir(Rest()))
        invariant ShellGrammar.ParseRedirs(ts) == After(done, ShellGrammar.ParseRedirs(Rest()))
        decreases es - s
      {
        ghost var us := Rest();
        RedirStep(us);
        var tok, _, _ := GetToken();
        var w, q, eq := GetToken();
        if w != 'a' {
          AfterPanic(done, ShellGrammar.ParseRedirs(us));
          return None;
        }
        ghost var d := Redir(ModeOf(us[0]).value, Word(q, eq));
        AfterCons(done, d, ShellGrammar.ParseRedirs(Rest()));
        WrappedMore(cmd, done, d);
        done := done + [d];
        if tok == '<' {
          c := Redirect(c, Redir(Mode.Input, Word(q, eq)));
        } else if tok == '>' {
          c := Redirect(c, Redir(Output, Word(q, eq)));
        } else {
          c := Redirect(c, Redir(Appended, Word(q, eq)));
        }
        more := Peek({'<', '>'});
      }
      RedirStop(done, Rest());
      r := Some(c);
    }

    /** The part of parseexec after the test for a block: arguments and redirections. */
    method ParseSimple() returns (r: Option<Cmd>)
      requires Valid()
      modifies this`s
      ensures Valid() && s >= old(s)
      ensures r.None? <==> ParseParts(old(Rest()), 0).Panic?
      ensures r.Some? ==> var p := ParseParts(old(Rest()), 0); r.value == ElementTree(Simple(p.value)) && Rest() == p.rest
    {
      hide ShellGrammar.ParseRedirs, ParseParts, Lex, Wrapped, WithArg, After, ArgsOf, RedirsOf, Tos;
      ghost var ts := Rest();
      RedirsThenParts(ts, 0);
      var c := ParseRedirs(Exec([]));
      if c.None? {
        return None;
      }
      var ret, argc := c.value, 0;
      ghost var done := Tos(ShellGrammar.ParseRedirs(ts).value);
      TreeStart(ShellGrammar.ParseRedirs(ts).value);
      var stop := Peek({'|', ')', '&', ';'});
      while !stop
        invariant Valid() && s >= old(s) && !StartsRedir(Rest()) && (stop <==> Starts(Rest(), {'|', ')', '&', ';'}))
        invariant ret == Wrapped(Exec(ArgsOf(done)), RedirsOf(done)) && argc == |ArgsOf(done)| < MAXARGS
        invariant ParseParts(ts, 0) == After(done, ParseParts(Rest(), argc))
        decreases es - s
      {
        ghost var us := Rest();
        var tok, q, eq := GetToken();
        if tok == '\0' {
          break;
        }
        PartsRound(done, us, argc);
        if tok != 'a' {
          return None;
        }
        ret := WithArg(ret, Word(q, eq));
        argc := argc + 1;
        if argc >= MAXARGS {
          return None;
        }
        c := ParseRedirs(ret);
        if c.None? {
          return None;
        }
        ret := c.value;
        ghost var rs := ShellGrammar.ParseRedirs(us[1..]).value;
        ghost var next := done + [Arg(Word(q, eq))] + Tos(rs);
        TreeRound(done, Word(q, eq), rs, next);
        done := next;
        stop := Peek({'|', ')', '&', ';'});
      }
      PartsStop(done, Rest(), argc);
      r := Some(ret);
    }

    method ParseExec() returns (r: Option<Cmd>)
      requires Valid()
      modifies this`s
      ensures Valid() && s >= old(s)
      ensures r.None? <==> ParseElement(old(Rest())).Panic?
      ensures r.Some? ==> var p := ParseElement(old(Rest())); r.value == ElementTree(p.value) && Rest() == p.rest
      decreases es - s, 1
    {
      var block := Peek({'('});
      if block {
        r := ParseBlock();
      } else {
        r := ParseSimple();
      }
    }

    /** parseblock, called where the next token is an opening bracket. */
    method ParseBlock() returns (r: Option<Cmd>)
      requires Valid() && Starts(Rest(), {'('})
      modifies this`s
      ensures Valid() && s >= old(s)
      ensures r.None? <==> ParseElement(old(Rest())).Panic?
      ensures r.Some? ==> var p := ParseElement(old(Rest())); r.value == ElementTree(p.value) && Rest() == p.rest
      decreases es - s, 0
    {
      var open := Peek({'('});
      if !open {
        return None;
      }
      var _, _, _ := GetToken();
      var cmd := ParseLine();
      if cmd.None? {
        return None;
      }
      var close := Peek({')'});
      if !close {
        return None;
      }
      var _, _, _ := GetToken();
      r := ParseRedirs(cmd.value);
    }

    method ParsePipe() returns (r: Option<Cmd>)
      requires Valid()
      modifies this`s
      ensures Valid() && s >= old(s)
      ensures r.None? <==> ParsePipeline(old(Rest())).Panic?
      ensures r.Some? ==> var p := ParsePipeline(old(Rest())); r.value == PipelineTree(p.value) && Rest() == p.rest
      decreases es - s, 2
    {
      var cmd := ParseExec();
      if cmd.None? {
        return None;
      }
      var more := Peek({'|'});
      if more {
        var _, _, _ := GetToken();
        var right := ParsePipe();
        if right.None? {
          return None;
        }
        cmd := Some(Pipe(cmd.value, right.value));
      }
      r := cmd;
    }

    method ParseLine() returns (r: Option<Cmd>)
      requires Valid()
      modifies this`s
      ensures Valid() && s >= old(s)
      ensures r.None? <==> ShellGrammar.ParseLine(old(Rest())).Panic?
      ensures r.Some? ==> var p := ShellGrammar.ParseLine(old(Rest())); r.value == LineTree(p.value) && Rest() == p.rest
      decreases es - s, 3
    {
      var left := ParsePipe();
      if left.None? {
        return None;
      }
      var cmd := ParseAmps(left.value);
      var more := Peek({';'});
      if more {
        var _, _, _ := GetToken();
        var right := ParseLine();
        if right.None? {
          return None;
        }
        cmd := List(cmd, right.value);
      }
      r := Some(cmd);
    }

    /** The loop of parseline over ampersands. */
    method ParseAmps(left: Cmd) returns (cmd: Cmd)
      requires Valid()
      modifies this`s
      ensures Valid() && s >= old(s)
      ensures var n := CountAmps(old(Rest())); cmd == Backs(left, n) && Rest() == old(Rest())[n..]
    {
      cmd := left;
      ghost var n, ts := 0, Rest();
      var more := Peek({'&'});
      while more
        invariant Valid() && s >= old(s) && n <= |ts| && Rest() == ts[n..] && (more <==> Starts(Rest(), {'&'}))
        invariant cmd == Backs(left, n) && CountAmps(ts) == n + CountAmps(Rest())
        decreases es - s
      {
        var _, _, _ := GetToken();
        cmd := Back(cmd);
        n := n + 1;
        more := Peek({'&'});
      }
    }
  }

  /** nulterminate: write a NUL at the end of every word of the tree. */
  method NulTerminate(buf: array<char>, c: Cmd)
    requires forall w :: w in WordsOf(c) ==> w.e < buf.Length
    modifies buf
    ensures Terminated(old(buf[..]), WordsOf(c), buf[..])
    decreases c
  {
    hide Terminated;
    ghost var b := buf[..];
    match c
    case Exec(args) =>
      var i := 0;
      TerminatedNone(b);
      assert WordsOf(Exec(args[..0])) == {};
      while i < |args|
        invariant i <= |args| && Terminated(b, WordsOf(Exec(args[..i])), buf[..])
      {
        assert args[i] in WordsOf(c);
        TerminatedArgs(b, args, i, buf[..], i + 1);
        buf[args[i].e] := '\0';
        i := i + 1;
      }
      assert args[..|args|] == args;
    case Redirect(d, r) =>
      NulTerminate(buf, d);
      TerminatedOne(buf[..], r.file);
      TerminatedTwice(b, WordsOf(d), buf[..], {r.file}, buf[..][r.file.e := '\0']);
      buf[r.file.e] := '\0';
    case Pipe(l, r) =>
      NulTerminate(buf, l);
      ghost var b' := buf[..];
      NulTerminate(buf, r);
      TerminatedTwice(b, WordsOf(l), b', WordsOf(r), buf[..]);
    case List(l, r) =>
      NulTerminate(buf, l);
      ghost var b' := buf[..];
      NulTerminate(buf, r);
      TerminatedTwice(b, WordsOf(l), b', WordsOf(r), buf[..]);
    case Back(d) =>
      NulTerminate(buf, d);
  }

  /** strlen. */
  method Length(buf: array<char>) returns (n: nat)
    requires '\0' in buf[..]
    ensures n < buf.Length && buf[n] == '\0' && '\0' !in buf[..n]
  {
    ghost var z :| 0 <= z < buf.Length && buf[z] == '\0';
    n := 0;
    while buf[n] != '\0'
      invariant n <= z && '\0' !in buf[..n]
      decreases z - n
    {
      n := n + 1;
    }
  }

  /** The line is one of the language: l says what its tokens say. */
  ghost predicate Says(t: string, l: Line) {
    LineTokens(l) == Lex(t, 0) && LineFits(l)
  }

  /** parsecmd: accepts exactly the lines of the language, with the tree of what they say;
      then every word of the tree, as a C string in the buffer, is what was written. */
  method ParseCmd(buf: array<char>) returns (r: Option<Cmd>)
    requires '\0' in buf[..]
    modifies buf
    ensures var t := StringAt(old(buf[..]), 0);
            && (r.None? ==> buf[..] == old(buf[..]) && forall l :: !Says(t, l))
            && (r.Some? ==> exists l :: Says(t, l) && r.value == LineTree(l) && Show(r.value) == PlainLine(l))
            && (r.Some? ==> forall w :: w in WordsOf(r.value) <==> Text(w) in Lex(t, 0))
            && (r.Some? ==> forall w :: w in WordsOf(r.value) ==> w.q <= w.e <= |t| && StringAt(buf[..], w.q) == t[w.q..w.e])
  {
    var es := Length(buf);
    var p := new Parser(buf, es);
    ghost var b, t := buf[..], buf[..es];
    StringUpTo(b, 0, es);
    var cmd := p.ParseLine();
    ghost var parsed := ShellGrammar.ParseLine(Lex(t, 0));
    if cmd.None? {
      NothingSaid(t);
      return None;
    }
    var _ := p.Peek({});
    if p.s != es {
      NothingSaid(t);
      return None;
    }
    Accepted(t, parsed.value);
    ShowLine(parsed.value);
    NulTerminate(buf, cmd.value);
    Survivors(b, t, parsed.value, buf[..]);
    r := cmd;
  }

  lemma NothingSaid(t: string)
    requires var p := ShellGrammar.ParseLine(Lex(t, 0)); p.Panic? || p.rest != []
    ensures forall l :: !Says(t, l)
  {
    forall l ensures !Says(t, l) {
      ParserIsExact(Lex(t, 0), l);
    }
  }

  lemma Accepted(t: string, l: Line)
    requires ShellGrammar.ParseLine(Lex(t, 0)) == Parsed(l, [])
    ensures Says(t, l) && forall w :: w in WordsOf(LineTree(l)) ==> IsWord(t, w)
  {
    ParserIsExact(Lex(t, 0), l);
    forall w | w in WordsOf(LineTree(l)) ensures IsWord(t, w) {
      LineWords(l, w);
      LexedWords(t, 0, Text(w));
    }
  }

  lemma Survivors(b: seq<char>, t: string, l: Line, b': seq<char>)
    requires |t| < |b| && b[..|t|] == t && '\0' !in t && Says(t, l) && Terminated(b, WordsOf(LineTree(l)), b')
    requires forall w :: w in WordsOf(LineTree(l)) ==> IsWord(t, w)
    ensures forall w :: w in WordsOf(LineTree(l)) <==> Text(w) in Lex(t, 0)
    ensures forall w :: w in WordsOf(LineTree(l)) ==> w.q <= w.e <= |t| && StringAt(b', w.q) == t[w.q..w.e]
  {
    var ws := WordsOf(LineTree(l));
    forall w ensures w in ws <==> Text(w) in Lex(t, 0) {
      LineWords(l, w);
    }
    forall w | w in ws ensures w.q <= w.e <= |t| && StringAt(b', w.q) == t[w.q..w.e] {
      WordsSurvive(b, t, ws, b', w);
    }
  }
}
