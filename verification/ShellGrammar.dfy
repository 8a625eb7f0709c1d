/** The command language of user/sh.c: its concrete syntax over tokens, the trees the
    parser builds, and a recursive-descent parser that is sound and complete for it. */
module ShellGrammar {

  datatype Option<T> = None | Some(value: T)

  const MAXARGS: nat := 10

  /** The characters from q up to e of the input. */
  datatype Word = Word(q: nat, e: nat)

  /** Append is the token >>. */
  datatype Token = Sym(c: char) | Append | Text(w: Word)

  datatype Mode = Input | Output | Appended

  datatype Redir = Redir(mode: Mode, file: Word)

  /** A part of a simple command. */
  datatype Part = Arg(w: Word) | To(r: Redir)

  // Concrete syntax: what the tokens say.
  datatype Line = Line(first: Pipeline, amps: nat, more: Option<Line>)
  datatype Pipeline = Pipeline(first: Element, more: Option<Pipeline>)
  datatype Element = Simple(parts: seq<Part>) | Block(line: Line, redirs: seq<Redir>)

  /** The tree, struct cmd. */
  datatype Cmd = Exec(args: seq<Word>) | Redirect(cmd: Cmd, r: Redir) | Pipe(left: Cmd, right: Cmd) | List(left: Cmd, right: Cmd) | Back(cmd: Cmd)

  // ---------------------------------------------------------------- the tokens of the syntax

  function ModeToken(m: Mode): Token {
    match m case Input => Sym('<') case Output => Sym('>') case Appended => Append
  }

  function RedirTokens(r: Redir): seq<Token> {
    [ModeToken(r.mode), Text(r.file)]
  }

  function RedirsTokens(rs: seq<Redir>): seq<Token> {
    if rs == [] then [] else RedirTokens(rs[0]) + RedirsTokens(rs[1..])
  }

  function PartsTokens(ps: seq<Part>): seq<Token> {
    if ps == [] then []
    else (if ps[0].Arg? then [Text(ps[0].w)] else RedirTokens(ps[0].r)) + PartsTokens(ps[1..])
  }

  function ElementTokens(e: Element): seq<Token> {
    match e
    case Simple(parts) => PartsTokens(parts)
    case Block(line, redirs) => [Sym('(')] + LineTokens(line) + [Sym(')')] + RedirsTokens(redirs)
  }

  function PipelineTokens(p: Pipeline): seq<Token> {
    ElementTokens(p.first) + if p.more.None? then [] else [Sym('|')] + PipelineTokens(p.more.value)
  }

  function LineTokens(l: Line): seq<Token> {
    PipelineTokens(l.first) + Amps(l.amps) + if l.more.None? then [] else [Sym(';')] + LineTokens(l.more.value)
  }

  function Amps(n: nat): (r: seq<Token>)
    ensures |r| == n
  {
    if n == 0 then [] else [Sym('&')] + Amps(n - 1)
  }

  // ---------------------------------------------------------------- the trees of the syntax

  function ArgsOf(ps: seq<Part>): seq<Word> {
    if ps == [] then [] else (if ps[0].Arg? then [ps[0].w] else []) + ArgsOf(ps[1..])
  }

  function RedirsOf(ps: seq<Part>): seq<Redir> {
    if ps == [] then [] else (if ps[0].To? then [ps[0].r] else []) + RedirsOf(ps[1..])
  }

  /** The first redirection is innermost. */
  function Wrapped(c: Cmd, rs: seq<Redir>): Cmd
    decreases |rs|
  {
    if rs == [] then c else Redirect(Wrapped(c, rs[..|rs| - 1]), rs[|rs| - 1])
  }

  function ElementTree(e: Element): Cmd {
    match e
    case Simple(parts) => Wrapped(Exec(ArgsOf(parts)), RedirsOf(parts))
    case Block(line, redirs) => Wrapped(LineTree(line), redirs)
  }

  function PipelineTree(p: Pipeline): Cmd {
    if p.more.None? then ElementTree(p.first) else Pipe(ElementTree(p.first), PipelineTree(p.more.value))
  }

  function Backs(c: Cmd, n: nat): Cmd {
    if n == 0 then c else Back(Backs(c, n - 1))
  }

  function LineTree(l: Line): Cmd {
    var c := Backs(PipelineTree(l.first), l.amps);
    if l.more.None? then c else List(c, LineTree(l.more.value))
  }

  /** Every command has fewer arguments than an argv array has room for. */
  predicate LineFits(l: Line) {
    PipelineFits(l.first) && (l.more.Some? ==> LineFits(l.more.value))
  }

  predicate PipelineFits(p: Pipeline) {
    ElementFits(p.first) && (p.more.Some? ==> PipelineFits(p.more.value))
  }

  predicate ElementFits(e: Element) {
    match e
    case Simple(parts) => |ArgsOf(parts)| < MAXARGS
    case Block(line, _) => LineFits(line)
  }

  // ---------------------------------------------------------------- the parser on tokens

  predicate Starts(ts: seq<Token>, cs: set<char>) {
    ts != [] && ts[0].Sym? && ts[0].c in cs
  }

  function ModeOf(t: Token): Option<Mode> {
    if t == Sym('<') then Some(Input) else if t == Sym('>') then Some(Output) else if t.Append? then Some(Appended) else None
  }

  predicate StartsRedir(ts: seq<Token>) {
    ts != [] && ModeOf(ts[0]).Some?
  }

  datatype Parsed<T> = Panic | Parsed(value: T, rest: seq<Token>)

  function Cons<T>(x: T, r: Parsed<seq<T>>): Parsed<seq<T>> {
    if r.Panic? then Panic else Parsed([x] + r.value, r.rest)
  }

  function ParseRedirs(ts: seq<Token>): (r: Parsed<seq<Redir>>)
    ensures r.Parsed? ==> |r.rest| <= |ts|
  {
    if !StartsRedir(ts) then Parsed([], ts)
    else if |ts| == 1 || !ts[1].Text? then Panic
    else Cons(Redir(ModeOf(ts[0]).value, ts[1].w), ParseRedirs(ts[2..]))
  }

  /** Arguments and redirections up to one of | ) & ; or the end; argc arguments came
      before. */
  function ParseParts(ts: seq<Token>, argc: nat): (r: Parsed<seq<Part>>)
    ensures r.Parsed? ==> |r.rest| <= |ts|
  {
    if ts == [] || Starts(ts, {'|', ')', '&', ';'}) then Parsed([], ts)
    else if StartsRedir(ts) then
      if |ts| == 1 || !ts[1].Text? then Panic
      else Cons(To(Redir(ModeOf(ts[0]).value, ts[1].w)), ParseParts(ts[2..], argc))
    else if !ts[0].Text? || argc + 1 >= MAXARGS then Panic
    else Cons(Arg(ts[0].w), ParseParts(ts[1..], argc + 1))
  }

  function ParseElement(ts: seq<Token>): (r: Parsed<Element>)
    ensures r.Parsed? ==> |r.rest| <= |ts|
    decreases |ts|, 0
  {
    if Starts(ts, {'('}) then
      var l := ParseLine(ts[1..]);
      if l.Panic? || !Starts(l.rest, {')'}) then Panic
      else
        var rs := ParseRedirs(l.rest[1..]);
        if rs.Panic? then Panic else Parsed(Block(l.value, rs.value), rs.rest)
    else
      var ps := ParseParts(ts, 0);
      if ps.Panic? then Panic else Parsed(Simple(ps.value), ps.rest)
  }

  function ParsePipeline(ts: seq<Token>): (r: Parsed<Pipeline>)
    ensures r.Parsed? ==> |r.rest| <= |ts|
    decreases |ts|, 1
  {
    var e := ParseElement(ts);
    if e.Panic? then Panic
    else if Starts(e.rest, {'|'}) then
      var p := ParsePipeline(e.rest[1..]);
      if p.Panic? then Panic else Parsed(Pipeline(e.value, Some(p.value)), p.rest)
    else Parsed(Pipeline(e.value, None), e.rest)
  }

  function CountAmps(ts: seq<Token>): (n: nat)
    ensures n <= |ts|
  {
    if Starts(ts, {'&'}) then 1 + CountAmps(ts[1..]) else 0
  }

  function ParseLine(ts: seq<Token>): (r: Parsed<Line>)
    ensures r.Parsed? ==> |r.rest| <= |ts|
    decreases |ts|, 2
  {
    var p := ParsePipeline(ts);
    if p.Panic? then Panic
    else
      var n := CountAmps(p.rest);
      var rest := p.rest[n..];
      if Starts(rest, {';'}) then
        var l := ParseLine(rest[1..]);
        if l.Panic? then Panic else Parsed(Line(p.value, n, Some(l.value)), l.rest)
      else Parsed(Line(p.value, n, None), rest)
  }

  // ---------------------------------------------------------------- soundness

  lemma Assoc(a: seq<Token>, b: seq<Token>, c: seq<Token>)
    ensures (a + b) + c == a + (b + c)
  {
  }

  lemma Uncons(ts: seq<Token>)
    requires ts != []
    ensures ts == [ts[0]] + ts[1..]
  {
  }

  lemma Uncons2(ts: seq<Token>)
    requires |ts| > 1
    ensures ts[..2] == [ts[0], ts[1]] && ts == ts[..2] + ts[2..]
  {
  }

  lemma Regroup(a: seq<Token>, b: seq<Token>, c: seq<Token>, d: seq<Token>, e: seq<Token>)
    ensures a + b + c + d + e == a + (b + (c + (d + e)))
  {
  }

  lemma RegroupPair(a: seq<Token>, b: seq<Token>, c: seq<Token>, d: seq<Token>)
    ensures a + (b + c) + d == a + (b + (c + d))
  {
  }

  lemma {:induction false} RedirsSound(ts: seq<Token>)
    requires ParseRedirs(ts).Parsed?
    ensures var r := ParseRedirs(ts); RedirsTokens(r.value) + r.rest == ts
    decreases |ts|
  {
    if StartsRedir(ts) {
      var r, t := ParseRedirs(ts), ParseRedirs(ts[2..]);
      RedirsSound(ts[2..]);
      assert r.value[1..] == t.value;
      Uncons2(ts);
      Assoc(ts[..2], RedirsTokens(t.value), r.rest);
    }
  }

  lemma FirstPart(x: Part, ps: seq<Part>)
    ensures PartsTokens([x] + ps) == (if x.Arg? then [Text(x.w)] else RedirTokens(x.r)) + PartsTokens(ps)
    ensures |ArgsOf([x] + ps)| == |ArgsOf(ps)| + if x.Arg? then 1 else 0
  {
    assert ([x] + ps)[1..] == ps;
  }

  lemma {:induction false} PartsSound(ts: seq<Token>, argc: nat)
    requires ParseParts(ts, argc).Parsed? && argc < MAXARGS
    ensures var r := ParseParts(ts, argc); PartsTokens(r.value) + r.rest == ts && argc + |ArgsOf(r.value)| < MAXARGS
    decreases |ts|
  {
    if ts == [] || Starts(ts, {'|', ')', '&', ';'}) {
      assert [] + ts == ts;
    } else {
      hide PartsTokens, ArgsOf, Starts;
      var r := ParseParts(ts, argc);
      if StartsRedir(ts) {
        var t := ParseParts(ts[2..], argc);
        PartsSound(ts[2..], argc);
        FirstPart(To(Redir(ModeOf(ts[0]).value, ts[1].w)), t.value);
        Uncons2(ts);
        Assoc(ts[..2], PartsTokens(t.value), r.rest);
      } else {
        var t := ParseParts(ts[1..], argc + 1);
        PartsSound(ts[1..], argc + 1);
        FirstPart(Arg(ts[0].w), t.value);
        Uncons(ts);
        Assoc([ts[0]], PartsTokens(t.value), r.rest);
      }
    }
  }

  lemma {:induction false} ElementSound(ts: seq<Token>)
    requires ParseElement(ts).Parsed?
    ensures var r := ParseElement(ts); ElementTokens(r.value) + r.rest == ts && ElementFits(r.value)
    decreases |ts|, 0
  {
    var r := ParseElement(ts);
    if Starts(ts, {'('}) {
      var l := ParseLine(ts[1..]);
      LineSound(ts[1..]);
      RedirsSound(l.rest[1..]);
      Regroup([Sym('(')], LineTokens(l.value), [Sym(')')], RedirsTokens(r.value.redirs), r.rest);
      Uncons(ts);
      Uncons(l.rest);
    } else {
      PartsSound(ts, 0);
    }
  }

  lemma {:induction false} PipelineSound(ts: seq<Token>)
    requires ParsePipeline(ts).Parsed?
    ensures var r := ParsePipeline(ts); PipelineTokens(r.value) + r.rest == ts && PipelineFits(r.value)
    decreases |ts|, 1
  {
    var r, e := ParsePipeline(ts), ParseElement(ts);
    ElementSound(ts);
    if Starts(e.rest, {'|'}) {
      PipelineSound(e.rest[1..]);
      RegroupPair(ElementTokens(e.value), [Sym('|')], PipelineTokens(r.value.more.value), r.rest);
      Uncons(e.rest);
    }
  }

  lemma {:induction false} AmpsSound(ts: seq<Token>)
    ensures Amps(CountAmps(ts)) + ts[CountAmps(ts)..] == ts && !Starts(ts[CountAmps(ts)..], {'&'})
    decreases |ts|
  {
    if Starts(ts, {'&'}) {
      AmpsSound(ts[1..]);
      assert ts == [ts[0]] + ts[1..];
      assert ts[CountAmps(ts)..] == ts[1..][CountAmps(ts[1..])..];
    }
  }

  /** What the parser accepts is what the tokens say. */
  lemma {:induction false} LineSound(ts: seq<Token>)
    requires ParseLine(ts).Parsed?
    ensures var r := ParseLine(ts); LineTokens(r.value) + r.rest == ts && LineFits(r.value)
    decreases |ts|, 2
  {
    var r, p := ParseLine(ts), ParsePipeline(ts);
    PipelineSound(ts);
    AmpsSound(p.rest);
    var rest := p.rest[r.value.amps..];
    if Starts(rest, {';'}) {
      LineSound(rest[1..]);
      RegroupPair(PipelineTokens(p.value) + Amps(r.value.amps), [Sym(';')], LineTokens(r.value.more.value), r.rest);
      Uncons(rest);
    } else {
      RegroupPair(PipelineTokens(p.value) + Amps(r.value.amps), [], [], rest);
    }
    Assoc(PipelineTokens(p.value), Amps(r.value.amps), rest);
  }

  // ---------------------------------------------------------------- completeness

  /** The tokens are over, or the next is one of cs. */
  predicate Ends(ts: seq<Token>, cs: set<char>) {
    ts == [] || Starts(ts, cs)
  }

  lemma {:induction false} RedirsComplete(rs: seq<Redir>, rest: seq<Token>)
    requires !StartsRedir(rest)
    ensures ParseRedirs(RedirsTokens(rs) + rest) == Parsed(rs, rest)
    decreases |rs|
  {
    var ts := RedirsTokens(rs) + rest;
    if rs == [] {
      assert ts == rest;
    } else {
      assert ts[..2] == RedirTokens(rs[0]) && ts[2..] == RedirsTokens(rs[1..]) + rest;
      RedirsComplete(rs[1..], rest);
      assert ts[0] == ts[..2][0] && ts[1] == ts[..2][1];
      assert rs == [rs[0]] + rs[1..];
    }
  }

  lemma ArgStep(w: Word, ts: seq<Token>, argc: nat)
    requires argc + 1 < MAXARGS
    ensures ParseParts([Text(w)] + ts, argc) == Cons(Arg(w), ParseParts(ts, argc + 1))
  {
    var all := [Text(w)] + ts;
    assert all[0] == Text(w) && all[1..] == ts;
  }

  lemma ToStep(r: Redir, ts: seq<Token>, argc: nat)
    ensures ParseParts(RedirTokens(r) + ts, argc) == Cons(To(r), ParseParts(ts, argc))
  {
    var all := RedirTokens(r) + ts;
    assert all[0] == ModeToken(r.mode) && all[1] == Text(r.file) && all[2..] == ts;
  }

  lemma {:induction false} PartsComplete(ps: seq<Part>, rest: seq<Token>, argc: nat)
    requires Ends(rest, {'|', ')', '&', ';'}) && argc + |ArgsOf(ps)| < MAXARGS
    ensures ParseParts(PartsTokens(ps) + rest, argc) == Parsed(ps, rest)
    decreases |ps|
  {
    if ps == [] {
      assert PartsTokens(ps) + rest == rest;
    } else {
      assert ps == [ps[0]] + ps[1..];
      var ts := PartsTokens(ps[1..]) + rest;
      if ps[0].Arg? {
        Assoc([Text(ps[0].w)], PartsTokens(ps[1..]), rest);
        PartsComplete(ps[1..], rest, argc + 1);
        ArgStep(ps[0].w, ts, argc);
      } else {
        Assoc(RedirTokens(ps[0].r), PartsTokens(ps[1..]), rest);
        PartsComplete(ps[1..], rest, argc);
        ToStep(ps[0].r, ts, argc);
      }
    }
  }

  /** Neither arguments nor redirections start with a bracket. */
  lemma PartsStart(ps: seq<Part>, rest: seq<Token>)
    requires Ends(rest, {'|', ')', '&', ';'})
    ensures !Starts(PartsTokens(ps) + rest, {'('})
  {
    var ts := PartsTokens(ps) + rest;
    if ps == [] {
      assert ts == rest;
    } else if ps[0].Arg? {
      assert ts[0] == Text(ps[0].w);
    } else {
      assert ts[0] == ModeToken(ps[0].r.mode);
    }
  }

  lemma BlockParsed(line: Line, redirs: seq<Redir>, rest: seq<Token>, ts: seq<Token>, after: seq<Token>)
    requires ts == [Sym('(')] + LineTokens(line) + [Sym(')')] + RedirsTokens(redirs) + rest
    requires after == [Sym(')')] + (RedirsTokens(redirs) + rest)
    requires ParseLine(LineTokens(line) + after) == Parsed(line, after) && ParseRedirs(RedirsTokens(redirs) + rest) == Parsed(redirs, rest)
    ensures ParseElement(ts) == Parsed(Block(line, redirs), rest)
  {
    hide ParseLine, ParseRedirs, LineTokens, RedirsTokens;
    assert ts[0] == Sym('(') && ts[1..] == LineTokens(line) + after;
    assert after[0] == Sym(')') && after[1..] == RedirsTokens(redirs) + rest;
  }

  lemma {:induction false} ElementComplete(e: Element, rest: seq<Token>)
    requires Ends(rest, {'|', ')', '&', ';'}) && ElementFits(e)
    ensures ParseElement(ElementTokens(e) + rest) == Parsed(e, rest)
    decreases e
  {
    var ts := ElementTokens(e) + rest;
    match e
    case Simple(parts) =>
      PartsStart(parts, rest);
      PartsComplete(parts, rest, 0);
    case Block(line, redirs) =>
      var after := [Sym(')')] + (RedirsTokens(redirs) + rest);
      LineComplete(line, after);
      RedirsComplete(redirs, rest);
      BlockParsed(line, redirs, rest, ts, after);
  }

  lemma {:induction false} PipelineComplete(p: Pipeline, rest: seq<Token>)
    requires Ends(rest, {')', '&', ';'}) && PipelineFits(p)
    ensures ParsePipeline(PipelineTokens(p) + rest) == Parsed(p, rest)
    decreases p
  {
    var ts := PipelineTokens(p) + rest;
    if p.more.None? {
      assert ts == ElementTokens(p.first) + rest;
      ElementComplete(p.first, rest);
    } else {
      var after := [Sym('|')] + (PipelineTokens(p.more.value) + rest);
      assert ts == ElementTokens(p.first) + after;
      ElementComplete(p.first, after);
      assert after[1..] == PipelineTokens(p.more.value) + rest;
      PipelineComplete(p.more.value, rest);
    }
  }

  lemma {:induction false} AmpsComplete(n: nat, rest: seq<Token>)
    requires !Starts(rest, {'&'})
    ensures CountAmps(Amps(n) + rest) == n && (Amps(n) + rest)[n..] == rest
    decreases n
  {
    if n == 0 {
      assert Amps(n) + rest == rest;
    } else {
      assert (Amps(n) + rest)[1..] == Amps(n - 1) + rest;
      AmpsComplete(n - 1, rest);
    }
  }

  lemma AmpsEnd(n: nat, rest: seq<Token>)
    requires Ends(rest, {')', ';'})
    ensures Ends(Amps(n) + rest, {')', '&', ';'})
  {
    if n == 0 {
      assert Amps(n) + rest == rest;
    } else {
      assert (Amps(n) + rest)[0] == Sym('&');
    }
  }

  lemma LineParsed(l: Line, ts: seq<Token>, mid: seq<Token>, after: seq<Token>, rest: seq<Token>)
    requires ParsePipeline(ts) == Parsed(l.first, mid) && CountAmps(mid) == l.amps && mid[l.amps..] == after
    requires if l.more.None? then after == rest && !Starts(after, {';'})
             else Starts(after, {';'}) && |after| <= |ts| && ParseLine(after[1..]) == Parsed(l.more.value, rest)
    ensures ParseLine(ts) == Parsed(l, rest)
  {
    hide ParsePipeline, CountAmps;
  }

  /** What the tokens say is what the parser accepts. */
  lemma {:induction false} LineComplete(l: Line, rest: seq<Token>)
    requires Ends(rest, {')'}) && LineFits(l)
    ensures ParseLine(LineTokens(l) + rest) == Parsed(l, rest)
    decreases l
  {
    hide ParseLine, ParsePipeline, CountAmps;
    var ts := LineTokens(l) + rest;
    var after := if l.more.None? then rest else [Sym(';')] + (LineTokens(l.more.value) + rest);
    var mid := Amps(l.amps) + after;
    LineSplit(l, rest, ts, mid, after);
    AmpsEnd(l.amps, after);
    PipelineComplete(l.first, mid);
    AmpsComplete(l.amps, after);
    if l.more.Some? {
      LineComplete(l.more.value, rest);
    }
    LineParsed(l, ts, mid, after, rest);
  }

  lemma LineSplit(l: Line, rest: seq<Token>, ts: seq<Token>, mid: seq<Token>, after: seq<Token>)
    requires ts == LineTokens(l) + rest && mid == Amps(l.amps) + after
    requires after == if l.more.None? then rest else [Sym(';')] + (LineTokens(l.more.value) + rest)
    ensures ts == PipelineTokens(l.first) + mid && |after| <= |ts| && (l.more.Some? ==> after[1..] == LineTokens(l.more.value) + rest)
  {
    hide PipelineTokens, Amps;
    var a := PipelineTokens(l.first) + Amps(l.amps);
    if l.more.Some? {
      var more := LineTokens(l.more.value);
      assert LineTokens(l) == a + ([Sym(';')] + more);
      hide LineTokens;
      RegroupPair(a, [Sym(';')], more, rest);
      assert after[1..] == more + rest;
    } else {
      assert LineTokens(l) == a + [] == a;
    }
    Assoc(PipelineTokens(l.first), Amps(l.amps), after);
  }

  /** The parser accepts exactly the token sequences of the language whose commands fit,
      and a token sequence says one thing only. */
  lemma ParserIsExact(ts: seq<Token>, l: Line)
    ensures ParseLine(ts) == Parsed(l, []) <==> LineTokens(l) == ts && LineFits(l)
  {
    if ParseLine(ts) == Parsed(l, []) {
      LineSound(ts);
      assert LineTokens(l) + [] == ts;
    }
    if LineTokens(l) == ts && LineFits(l) {
      LineComplete(l, []);
      assert ts + [] == ts;
    }
  }

  // ---------------------------------------------------------------- the tree says what the line says

  /** A tree written out from left to right, without brackets. */
  function Show(c: Cmd): seq<Token> {
    match c
    case Exec(args) => Texts(args)
    case Redirect(d, r) => Show(d) + RedirTokens(r)
    case Pipe(l, r) => Show(l) + [Sym('|')] + Show(r)
    case List(l, r) => Show(l) + [Sym(';')] + Show(r)
    case Back(d) => Show(d) + [Sym('&')]
  }

  function Texts(ws: seq<Word>): seq<Token> {
    if ws == [] then [] else [Text(ws[0])] + Texts(ws[1..])
  }

  /** The tokens of a line in their order, without the brackets; inside a simple command
      the arguments come before the redirections. */
  function PlainLine(l: Line): seq<Token> {
    PlainPipeline(l.first) + Amps(l.amps) + if l.more.None? then [] else [Sym(';')] + PlainLine(l.more.value)
  }

  function PlainPipeline(p: Pipeline): seq<Token> {
    PlainElement(p.first) + if p.more.None? then [] else [Sym('|')] + PlainPipeline(p.more.value)
  }

  function PlainElement(e: Element): seq<Token> {
    match e
    case Simple(parts) => Texts(ArgsOf(parts)) + RedirsTokens(RedirsOf(parts))
    case Block(line, redirs) => PlainLine(line) + RedirsTokens(redirs)
  }

  lemma {:induction false} RedirsSnoc(rs: seq<Redir>)
    requires rs != []
    ensures RedirsTokens(rs) == RedirsTokens(rs[..|rs| - 1]) + RedirTokens(rs[|rs| - 1])
    decreases |rs|
  {
    if |rs| > 1 {
      var n := |rs| - 1;
      RedirsSnoc(rs[1..]);
      assert rs[1..][..n - 1] == rs[..n][1..];
      Assoc(RedirTokens(rs[0]), RedirsTokens(rs[..n][1..]), RedirTokens(rs[n]));
    }
  }

  lemma {:induction false} ShowWrapped(c: Cmd, rs: seq<Redir>)
    ensures Show(Wrapped(c, rs)) == Show(c) + RedirsTokens(rs)
    decreases |rs|
  {
    if rs == [] {
      assert Show(c) + [] == Show(c);
    } else {
      var n := |rs| - 1;
      ShowWrapped(c, rs[..n]);
      RedirsSnoc(rs);
      Assoc(Show(c), RedirsTokens(rs[..n]), RedirTokens(rs[n]));
    }
  }

  lemma {:induction false} AmpsSnoc(n: nat)
    requires n > 0
    ensures Amps(n) == Amps(n - 1) + [Sym('&')]
  {
    if n > 1 {
      AmpsSnoc(n - 1);
      Assoc([Sym('&')], Amps(n - 2), [Sym('&')]);
    }
  }

  lemma {:induction false} ShowBacks(c: Cmd, n: nat)
    ensures Show(Backs(c, n)) == Show(c) + Amps(n)
  {
    if n == 0 {
      assert Show(c) + [] == Show(c);
    } else {
      ShowBacks(c, n - 1);
      AmpsSnoc(n);
      Assoc(Show(c), Amps(n - 1), [Sym('&')]);
    }
  }

  lemma {:induction false} ShowElement(e: Element)
    ensures Show(ElementTree(e)) == PlainElement(e)
    decreases e
  {
    match e
    case Simple(parts) => ShowWrapped(Exec(ArgsOf(parts)), RedirsOf(parts));
    case Block(line, redirs) =>
      ShowLine(line);
      ShowWrapped(LineTree(line), redirs);
  }

  lemma {:induction false} ShowPipeline(p: Pipeline)
    ensures Show(PipelineTree(p)) == PlainPipeline(p)
    decreases p
  {
    ShowElement(p.first);
    if p.more.Some? {
      ShowPipeline(p.more.value);
      Assoc(PlainElement(p.first), [Sym('|')], PlainPipeline(p.more.value));
    } else {
      assert PlainElement(p.first) + [] == PlainElement(p.first);
    }
  }

  /** The tree of a line, written out, is the line: the same operators and words in the
      same order. */
  lemma {:induction false} ShowLine(l: Line)
    ensures Show(LineTree(l)) == PlainLine(l)
    decreases l
  {
    ShowPipeline(l.first);
    ShowBacks(PipelineTree(l.first), l.amps);
    var a := PlainPipeline(l.first) + Amps(l.amps);
    if l.more.Some? {
      ShowLine(l.more.value);
      Assoc(a, [Sym(';')], PlainLine(l.more.value));
    } else {
      assert a + [] == a;
    }
  }
}
