/**
 The shell's parser (user/sh.c). The input is what is left of the line; places in it are counted from its
 end, which is a NUL byte.
 */
module ShellParser {

  /** Commands over words of type W. */
  datatype Cmd<W> =
    | Exec(args: seq<W>)
    | Redir(cmd: Cmd<W>, kind: Kind, file: W)
    | Pipe(left: Cmd<W>, right: Cmd<W>)
    | List(left: Cmd<W>, right: Cmd<W>)
    | Back(cmd: Cmd<W>)

  /** <, > and >>. */
  datatype Kind = In | Out | Append

  /** A word of the input: its text, and what is left of the line at its start and behind it. */
  datatype Word = Word(text: string, start: nat, end: nat)

  /** The parser's panics are one outcome. */
  datatype Parsed = Ok(cmd: Cmd<Word>, rest: string) | Panic

  const MAXARGS: nat := 10

  predicate IsSpace(c: char) { c == ' ' || c == '\t' || c == '\r' || c == '\n' || c == '\U{b}' }

  predicate IsSymbol(c: char) { c == '<' || c == '|' || c == '>' || c == '&' || c == ';' || c == '(' || c == ')' }

  predicate IsWordChar(c: char) { !IsSpace(c) && !IsSymbol(c) && c != '\0' }

  // ----- tokens -----

  function SkipSpace(r: string): (t: string)
    ensures |t| <= |r| && (t != [] ==> !IsSpace(t[0]))
  {
    if r != [] && IsSpace(r[0]) then SkipSpace(r[1..]) else r
  }

  /** The rest behind the word at the front. */
  function SkipWord(r: string): (t: string)
    ensures |t| <= |r| && (t != [] ==> IsSpace(t[0]) || IsSymbol(t[0]))
  {
    if r != [] && !IsSpace(r[0]) && !IsSymbol(r[0]) then SkipWord(r[1..]) else r
  }

  datatype Token = End | Symbol(c: char) | Appends | Text

  /** gettoken: the token, what is left at its start, right behind it, and behind the space after it. */
  function GetToken(r: string): (t: (Token, string, string, string))
    ensures |t.3| <= |t.2| <= |t.1| <= |r| && (t.0 != End ==> |t.2| < |t.1|)
    ensures t.1 == SkipSpace(r) && t.3 == SkipSpace(t.2)
  {
    var q := SkipSpace(r);
    if q == [] then (End, q, q, q)
    else if q[0] == '>' then
      if |q| > 1 && q[1] == '>' then (Appends, q, q[2..], SkipSpace(q[2..]))
          else (Symbol('>'), q, q[1..], SkipSpace(q[1..]))
    else if IsSymbol(q[0]) then (Symbol(q[0]), q, q[1..], SkipSpace(q[1..]))
    else (Text, q, SkipWord(q), SkipSpace(SkipWord(q)))
  }

  /** peek, where the space in front has been skipped. */
  predicate Peek(q: string, toks: string) { q != [] && q[0] in toks }

  function After(q: string): (t: string)
    ensures |t| <= |q| && (q != [] && !IsSpace(q[0]) ==> |t| < |q|)
  {
    GetToken(q).3
  }

  function WordOf(q: string, e: string): Word
    requires |e| <= |q|
  {
    Word(q[..|q| - |e|], |q|, |e|)
  }

  // ----- the grammar -----

  /** A word joins the arguments of the command under the redirections. */
  function AddArg<W>(c: Cmd<W>, w: W): Cmd<W> {
    match c
    case Exec(args) => Exec(args + [w])
    case Redir(d, k, f) => Redir(AddArg(d, w), k, f)
    case _ => c
  }

  function ParseLine(r: string): (p: Parsed)
    ensures p.Ok? ==> |p.rest| <= |r|
    decreases |r|, 5
  {
    var p := ParsePipe(r);
    if p.Panic? then Panic else ParseTail(p.cmd, p.rest)
  }

  /** parseline behind its pipeline. */
  function ParseTail(c: Cmd<Word>, r: string): (p: Parsed)
    ensures p.Ok? ==> |p.rest| <= |r|
    decreases |r|, 4
  {
    var q := SkipSpace(r);
    if Peek(q, "&") then ParseTail(Back(c), After(q))
    else if Peek(q, ";") then
      var p := ParseLine(After(q));
      if p.Panic? then Panic else Ok(List(c, p.cmd), p.rest)
    else Ok(c, q)
  }

  function ParsePipe(r: string): (p: Parsed)
    ensures p.Ok? ==> |p.rest| <= |r|
    decreases |r|, 3
  {
    var p := ParseExec(r);
    if p.Panic? then Panic
    else
      var q := SkipSpace(p.rest);
      if Peek(q, "|") then
        var p2 := ParsePipe(After(q));
        if p2.Panic? then Panic else Ok(Pipe(p.cmd, p2.cmd), p2.rest)
      else Ok(p.cmd, q)
  }

  function KindOf(t: Token): Kind { if t == Symbol('<') then In else if t == Appends then Append else Out }

  function ParseRedirs(c: Cmd<Word>, r: string): (p: Parsed)
    ensures p.Ok? ==> |p.rest| <= |r|
    decreases |r|, 0
  {
    var q := SkipSpace(r);
    if !Peek(q, "<>") then Ok(c, q)
    else
      var t := GetToken(q);
      var f := GetToken(t.3);
      if f.0 != Text then Panic else ParseRedirs(Redir(c, KindOf(t.0), WordOf(f.1, f.2)), f.3)
  }

  function ParseBlock(r: string): (p: Parsed)
    requires Peek(r, "(")
    ensures p.Ok? ==> |p.rest| <= |r|
    decreases |r|, 1
  {
    var p := ParseLine(After(r));
    if p.Panic? then Panic
    else
      var q := SkipSpace(p.rest);
      if !Peek(q, ")") then Panic else ParseRedirs(p.cmd, After(q))
  }

  /** parseexec's loop over the arguments. */
  function ParseArgs(c: Cmd<Word>, argc: nat, r: string): (p: Parsed)
    ensures p.Ok? ==> |p.rest| <= |r|
    decreases |r|, 0
  {
    var q := SkipSpace(r);
    if Peek(q, "|)&;") then Ok(c, q)
    else
      var t := GetToken(q);
      if t.0 == End then Ok(c, t.3)
      else if t.0 != Text then Panic
      else if argc + 1 >= MAXARGS then Panic
      else
        var p := ParseRedirs(AddArg(c, WordOf(t.1, t.2)), t.3);
        if p.Panic? then Panic else ParseArgs(p.cmd, argc + 1, p.rest)
  }

  function ParseExec(r: string): (p: Parsed)
    ensures p.Ok? ==> |p.rest| <= |r|
    decreases |r|, 2
  {
    var q := SkipSpace(r);
    if Peek(q, "(") then ParseBlock(q)
    else
      var p := ParseRedirs(Exec([]), q);
      if p.Panic? then Panic else ParseArgs(p.cmd, 0, p.rest)
  }

  /** parsecmd, before nulterminate. */
  function ParseCmd(s: string): Parsed {
    var p := ParseLine(s);
    if p.Panic? then Panic
    else if SkipSpace(p.rest) != [] then Panic
    else Ok(p.cmd, [])
  }

  // ----- printing -----

  predicate IsWord(w: string) { w != [] && forall i :: 0 <= i < |w| ==> IsWordChar(w[i]) }

  /** Words of word characters, and at most 9 arguments. */
  predicate WellFormed(t: Cmd<string>) {
    match t
    case Exec(args) => |args| < MAXARGS && forall i :: 0 <= i < |args| ==> IsWord(args[i])
    case Redir(u, _, f) => WellFormed(u) && IsWord(f)
    case Pipe(l, r) => WellFormed(l) && WellFormed(r)
    case List(l, r) => WellFormed(l) && WellFormed(r)
    case Back(u) => WellFormed(u)
  }

  function Sign(k: Kind): string {
    match k
    case In => "<"
    case Out => ">"
    case Append => ">>"
  }

  function PrintWords(ws: seq<string>): string { if ws == [] then "" else ws[0] + " " + PrintWords(ws[1..]) }

  /** A pipeline, list or background command, without parentheses. */
  function PrintBody(t: Cmd<string>): string
    requires t.Pipe? || t.List? || t.Back?
    decreases t, 0
  {
    match t
    case Pipe(l, r) => PrintExec(l) + "|" + PrintPipe(r)
    case List(l, r) => PrintBack(l) + ";" + PrintLine(r)
    case Back(u) => PrintBack(u) + "&"
  }

  /** What parseexec reads: words and redirections, or a block in parentheses. */
  function PrintExec(t: Cmd<string>): string
    decreases t, 1
  {
    match t
    case Exec(args) => PrintWords(args)
    case Redir(u, k, f) => PrintExec(u) + Sign(k) + f + " "
    case _ => "(" + PrintBody(t) + ")"
  }

  function PrintPipe(t: Cmd<string>): string
    decreases t, 2
  {
    if t.Pipe? then PrintBody(t) else PrintExec(t)
  }

  function PrintBack(t: Cmd<string>): string
    decreases t, 3
  {
    if t.Back? then PrintBody(t) else PrintPipe(t)
  }

  function PrintLine(t: Cmd<string>): string
    decreases t, 4
  {
    if t.List? then PrintBody(t) else PrintBack(t)
  }

  function Texts(ws: seq<Word>): (r: seq<string>)
    ensures |r| == |ws| && forall i :: 0 <= i < |ws| ==> r[i] == ws[i].text
  {
    seq(|ws|, i requires 0 <= i < |ws| => ws[i].text)
  }

  /** The command without the places of its words. */
  function Erase(c: Cmd<Word>): Cmd<string> {
    match c
    case Exec(args) => Exec(Texts(args))
    case Redir(d, k, f) => Redir(Erase(d), k, f.text)
    case Pipe(l, r) => Pipe(Erase(l), Erase(r))
    case List(l, r) => List(Erase(l), Erase(r))
    case Back(d) => Back(Erase(d))
  }

  // ----- parsing what was printed -----

  lemma {:induction false} WordSkipped(w: string, rest: string)
    requires forall i :: 0 <= i < |w| ==> IsWordChar(w[i])
    requires rest != [] ==> IsSpace(rest[0]) || IsSymbol(rest[0])
    ensures SkipWord(w + rest) == rest
  {
    if w == [] {
      assert w + rest == rest;
    } else {
      assert (w + rest)[0] == w[0] && (w + rest)[1..] == w[1..] + rest;
      WordSkipped(w[1..], rest);
    }
  }

  /** A printed word is read back, with the space behind it. */
  lemma WordToken(w: string, rest: string)
    requires IsWord(w) && (rest != [] ==> !IsSpace(rest[0]))
    ensures var r := w + " " + rest;
            SkipSpace(r) == r && GetToken(r) == (Text, r, " " + rest, rest) && WordOf(r, " " + rest).text == w
  {
    var r := w + " " + rest;
    assert r[0] == w[0] && IsWordChar(w[0]);
    assert r == w + (" " + rest);
    WordSkipped(w, " " + rest);
    assert (" " + rest)[1..] == rest;
    assert SkipSpace(" " + rest) == rest;
    assert r[..|w|] == w;
  }

  /** Behind a command there is nothing, or one of these. */
  predicate Follow(rest: string, toks: string) { rest == [] || rest[0] in toks }

  lemma FollowStops(rest: string, toks: string)
    requires Follow(rest, toks) && (forall i :: 0 <= i < |toks| ==> IsSymbol(toks[i]))
    ensures SkipSpace(rest) == rest && (rest != [] ==> !IsSpace(rest[0]))
  {
  }

  predicate NoSpace(r: string) { r != [] ==> !IsSpace(r[0]) }

  lemma Skipped(r: string)
    ensures SkipSpace(SkipSpace(r)) == SkipSpace(r)
    ensures NoSpace(r) ==> SkipSpace(r) == r
    ensures ParsePipe(SkipSpace(r)) == ParsePipe(r) && ParseLine(SkipSpace(r)) == ParseLine(r)
  {
    assert ParseExec(SkipSpace(r)) == ParseExec(r);
  }

  /** How parseexec goes on: behind words and redirections so far, or behind a block. */
  function Cont(words: bool, argc: nat, c: Cmd<Word>, r: string): Parsed {
    var p := ParseRedirs(c, r);
    if p.Panic? || !words then p else ParseArgs(p.cmd, argc, p.rest)
  }

  function BaseArgs(t: Cmd<string>): nat {
    match t
    case Exec(args) => |args|
    case Redir(u, _, _) => BaseArgs(u)
    case _ => 0
  }

  predicate HasWords(t: Cmd<string>) {
    match t
    case Exec(_) => true
    case Redir(u, _, _) => HasWords(u)
    case _ => false
  }

  /** A printed redirection is read back. */
  lemma RedirParsed(c: Cmd<Word>, k: Kind, f: string, tail: string) returns (w: Word)
    requires IsWord(f) && NoSpace(tail)
    ensures w.text == f && ParseRedirs(c, Sign(k) + f + " " + tail) == ParseRedirs(Redir(c, k, w), tail)
  {
    var r := Sign(k) + f + " " + tail;
    var g := f + " " + tail;
    assert r == Sign(k) + g;
    assert g[0] == f[0] && IsWordChar(f[0]);
    assert r[0] == Sign(k)[0] && !IsSpace(r[0]) && SkipSpace(r) == r && r[0] in "<>";
    WordToken(f, tail);
    w := WordOf(g, " " + tail);
    SignToken(k, g);
  }

  lemma SignToken(k: Kind, g: string)
    requires g != [] && IsWordChar(g[0])
    ensures var t := GetToken(Sign(k) + g); KindOf(t.0) == k && t.3 == g
  {
    var r := Sign(k) + g;
    assert SkipSpace(g) == g;
    match k
    case In => assert r[0] == '<' && r[1..] == g;
    case Out => assert r[0] == '>' && r[1] == g[0] && r[1..] == g;
    case Append => assert r[0] == '>' && r[1] == '>' && r[2..] == g;
  }

  /** One argument. */
  lemma ArgParsed(c: Cmd<Word>, k: nat, w: string, tail: string) returns (v: Word)
    requires IsWord(w) && NoSpace(tail) && k + 1 < MAXARGS
    ensures v.text == w && Cont(true, k, c, w + " " + tail) == Cont(true, k + 1, AddArg(c, v), tail)
  {
    var r := w + " " + tail;
    WordToken(w, tail);
    v := WordOf(r, " " + tail);
    assert r[0] == w[0] && IsWordChar(w[0]);
    assert ParseRedirs(c, r) == Ok(c, r);
    assert !Peek(r, "|)&;");
  }

  lemma {:induction false} WordsParsed(args: seq<Word>, ws: seq<string>, tail: string) returns (all: seq<Word>)
    requires (forall i :: 0 <= i < |ws| ==> IsWord(ws[i])) && |args| + |ws| < MAXARGS && NoSpace(tail)
    ensures Texts(all) == Texts(args) + ws && |all| == |args| + |ws|
    ensures Cont(true, |args|, Exec(args), PrintWords(ws) + tail) == Cont(true, |all|, Exec(all), tail)
    decreases ws
  {
    hide Cont, GetToken, IsWord, NoSpace;
    if ws == [] {
      all := args;
      assert PrintWords(ws) + tail == tail;
    } else {
      var more := PrintWords(ws[1..]) + tail;
      assert PrintWords(ws) + tail == ws[0] + " " + more;
      WordsNoSpace(ws[1..], tail);
      var v := ArgParsed(Exec(args), |args|, ws[0], more);
      all := WordsParsed(args + [v], ws[1..], tail);
      assert Texts(args + [v]) == Texts(args) + [ws[0]];
      assert Texts(args) + [ws[0]] + ws[1..] == Texts(args) + ws;
    }
  }

  lemma WordsNoSpace(ws: seq<string>, tail: string)
    requires (forall i :: 0 <= i < |ws| ==> IsWord(ws[i])) && NoSpace(tail)
    ensures NoSpace(PrintWords(ws) + tail)
  {
    if ws != [] {
      assert IsWord(ws[0]) && (PrintWords(ws) + tail)[0] == ws[0][0];
    } else {
      assert PrintWords(ws) + tail == tail;
    }
  }

  lemma ContStops(words: bool, argc: nat, c: Cmd<Word>, rest: string)
    requires Follow(rest, "|)&;")
    ensures Cont(words, argc, c, rest) == Ok(c, rest)
  {
    FollowStops(rest, "|)&;");
  }

  /** No space, and no block. */
  predicate Tail(r: string) { r != [] ==> !IsSpace(r[0]) && r[0] != '(' }

  lemma {:induction false} ExecParsed(t: Cmd<string>, tail: string) returns (c: Cmd<Word>)
    requires WellFormed(t) && Tail(tail)
    ensures Erase(c) == t && ParseExec(PrintExec(t) + tail) == Cont(HasWords(t), BaseArgs(t), c, tail)
    decreases t, 1
  {
    hide Cont, ParseRedirs, ParseArgs, ParseLine, ParseTail, GetToken;
    match t
    case Exec(args) =>
      var all := WordsParsed([], args, tail);
      c := Exec(all);
      assert Texts([]) + args == args;
      WordsNoSpace(args, tail);
      StartExec(PrintWords(args) + tail, args, tail);
    case Redir(u, k, f) =>
      var more := Sign(k) + f + " " + tail;
      assert PrintExec(t) + tail == PrintExec(u) + more;
      var d := ExecParsed(u, more);
      var w := RedirParsed(d, k, f, tail);
      c := Redir(d, k, w);
      ContSame(HasWords(u), BaseArgs(u), d, more, c, tail);
    case _ =>
      c := BodyParsed(t, ")" + tail);
      BlockParsed(PrintBody(t), c, tail);
      assert PrintExec(t) + tail == "(" + (PrintBody(t) + (")" + tail));
  }

  lemma {:induction false} BodyParsed(t: Cmd<string>, rest: string) returns (c: Cmd<Word>)
    requires WellFormed(t) && (t.Pipe? || t.List? || t.Back?) && Follow(rest, ")")
    ensures Erase(c) == t && ParseLine(PrintBody(t) + rest) == Ok(c, rest)
    decreases t, 0, 1
  {
    hide ParsePipe, GetToken, PrintBody;
    FollowStops(rest, ")");
    match t
    case Pipe(_, _) => c := PipeBody(t, rest);
    case List(_, _) => c := ListBody(t, rest);
    case Back(_) => c := BackBody(t, rest);
  }

  lemma {:induction false} PipeBody(t: Cmd<string>, rest: string) returns (c: Cmd<Word>)
    requires WellFormed(t) && t.Pipe? && Follow(rest, ")&;")
    ensures Erase(c) == t && ParsePipe(PrintBody(t) + rest) == Ok(c, rest)
    decreases t, 0, 0
  {
    hide ParseExec, Cont, GetToken;
    var more := PrintPipe(t.right) + rest;
    assert PrintBody(t) + rest == PrintExec(t.left) + ("|" + more);
    var l := ExecParsed(t.left, "|" + more);
    ContStops(HasWords(t.left), BaseArgs(t.left), l, "|" + more);
    var r := PipeParsed(t.right, rest);
    c := Pipe(l, r);
    BarAfter("|", more);
  }

  lemma {:induction false} BackBody(t: Cmd<string>, rest: string) returns (c: Cmd<Word>)
    requires WellFormed(t) && t.Back? && Follow(rest, ")&;")
    ensures Erase(c) == t && ParseLine(PrintBody(t) + rest) == ParseTail(c, rest)
    decreases t, 0, 0
  {
    hide ParsePipe, ParseLine, GetToken;
    assert PrintBody(t) + rest == PrintBack(t.cmd) + ("&" + rest);
    var d := BackParsed(t.cmd, "&" + rest);
    c := Back(d);
    BarAfter("&", rest);
    FollowStops(rest, ")&;");
  }

  lemma {:induction false} ListBody(t: Cmd<string>, rest: string) returns (c: Cmd<Word>)
    requires WellFormed(t) && t.List? && Follow(rest, ")")
    ensures Erase(c) == t && ParseLine(PrintBody(t) + rest) == Ok(c, rest)
    decreases t, 0, 0
  {
    hide ParsePipe, ParseLine, GetToken;
    var more := PrintLine(t.right) + rest;
    assert PrintBody(t) + rest == PrintBack(t.left) + (";" + more);
    var l := BackParsed(t.left, ";" + more);
    var r := LineParsed(t.right, rest);
    c := List(l, r);
    BarAfter(";", more);
  }

  lemma StartExec(r: string, args: seq<string>, tail: string)
    requires r == PrintWords(args) + tail && NoSpace(r) && (forall i :: 0 <= i < |args| ==> IsWord(args[i]))
    requires args == [] ==> tail == [] || tail[0] != '('
    ensures ParseExec(r) == Cont(true, 0, Exec([]), r)
  {
    if args != [] {
      assert IsWord(args[0]) && r[0] == args[0][0];
    } else {
      assert r == tail;
    }
  }

  lemma ContSame(words: bool, argc: nat, c: Cmd<Word>, r: string, d: Cmd<Word>, q: string)
    requires ParseRedirs(c, r) == ParseRedirs(d, q)
    ensures Cont(words, argc, c, r) == Cont(words, argc, d, q)
  {
  }

  lemma BlockParsed(body: string, c: Cmd<Word>, tail: string)
    requires ParseLine(body + (")" + tail)) == Ok(c, ")" + tail) && NoSpace(tail)
    ensures ParseExec("(" + (body + (")" + tail))) == Cont(false, 0, c, tail)
  {
    hide ParseLine, ParseRedirs;
    var inner := body + (")" + tail);
    var r := "(" + inner;
    assert r[1..] == inner;
    Skipped(inner);
    assert After(r) == SkipSpace(inner);
    var q := ")" + tail;
    assert q[1..] == tail;
    assert SkipSpace(q) == q && After(q) == SkipSpace(tail) == tail;
  }

  lemma {:induction false} PipeParsed(t: Cmd<string>, rest: string) returns (c: Cmd<Word>)
    requires WellFormed(t) && Follow(rest, ")&;")
    ensures Erase(c) == t && ParsePipe(PrintPipe(t) + rest) == Ok(c, rest)
    decreases t, 2
  {
    hide ParseExec, Cont, GetToken;
    FollowStops(rest, ")&;");
    if t.Pipe? {
      c := PipeBody(t, rest);
    } else {
      c := ExecParsed(t, rest);
      ContStops(HasWords(t), BaseArgs(t), c, rest);
    }
  }

  /** Behind a one-character symbol the same thing is parsed, with or without space. */
  lemma BarAfter(sym: string, more: string)
    requires sym == "|" || sym == ";" || sym == "&"
    ensures SkipSpace(sym + more) == sym + more && Peek(sym + more, sym) && After(sym + more) == SkipSpace(more)
    ensures ParsePipe(After(sym + more)) == ParsePipe(more) && ParseLine(After(sym + more)) == ParseLine(more)
  {
    var q := sym + more;
    assert q[0] == sym[0] && q[1..] == more;
    Skipped(more);
  }

  lemma {:induction false} BackParsed(t: Cmd<string>, rest: string) returns (c: Cmd<Word>)
    requires WellFormed(t) && Follow(rest, ")&;")
    ensures Erase(c) == t && ParseLine(PrintBack(t) + rest) == ParseTail(c, rest)
    decreases t, 3
  {
    hide ParsePipe, GetToken, PrintBody;
    if t.Back? {
      c := BackBody(t, rest);
    } else {
      c := PipeParsed(t, rest);
    }
  }

  /** What is printed is read back: the parser recovers the command, and stops where the printed form ends. */
  lemma {:induction false} LineParsed(t: Cmd<string>, rest: string) returns (c: Cmd<Word>)
    requires WellFormed(t) && Follow(rest, ")")
    ensures Erase(c) == t && ParseLine(PrintLine(t) + rest) == Ok(c, rest)
    decreases t, 4
  {
    hide ParsePipe, ParseLine, GetToken, PrintBody;
    FollowStops(rest, ")");
    if t.List? {
      c := ListBody(t, rest);
    } else {
      c := BackParsed(t, rest);
    }
  }

  /** parsecmd recovers every well-formed command from its printed form. */
  lemma RoundTrip(t: Cmd<string>)
    requires WellFormed(t)
    ensures ParseCmd(PrintLine(t)).Ok? && Erase(ParseCmd(PrintLine(t)).cmd) == t
  {
    var c := LineParsed(t, "");
    assert PrintLine(t) + "" == PrintLine(t);
  }

  // ----- which space characters stand between words, and how many, makes no difference -----

  predicate Spaces(s: string) {
    forall i :: 0 <= i < |s| ==> s[i] == ' ' || s[i] == '\t' || s[i] == '\r' || s[i] == '\n' || s[i] == '\U{b}'
  }

  /** s is r with one or more space characters in place of each blank. */
  ghost predicate Respaced(s: string, r: string)
    decreases |r|
  {
    if r == "" then s == ""
    else if r[0] == ' ' then exists k :: 1 <= k <= |s| && Spaces(s[..k]) && Respaced(s[k..], r[1..])
    else s != "" && s[0] == r[0] && Respaced(s[1..], r[1..])
  }

  /** Both panic, or both parse the same words in the same places of the same command. */
  ghost predicate Same(a: Parsed, b: Parsed) {
    (a.Panic? && b.Panic?) || (a.Ok? && b.Ok? && Erase(a.cmd) == Erase(b.cmd) && Respaced(a.rest, b.rest))
  }

  lemma {:induction false} SpacesSkipped(s: string, k: nat)
    requires k <= |s| && Spaces(s[..k])
    ensures SkipSpace(s) == SkipSpace(s[k..])
  {
    if k > 0 {
      assert s[..k][0] == s[0] && s[1..][..k - 1] == s[..k][1..] && s[1..][k - 1..] == s[k..];
      SpacesSkipped(s[1..], k - 1);
    }
  }

  lemma {:induction false} SkipSame(s: string, r: string)
    requires Respaced(s, r)
    ensures Respaced(SkipSpace(s), SkipSpace(r))
    decreases |r|
  {
    if r != "" && r[0] == ' ' {
      var k :| 1 <= k <= |s| && Spaces(s[..k]) && Respaced(s[k..], r[1..]);
      SpacesSkipped(s, k);
      SkipSame(s[k..], r[1..]);
    } else if r != "" && IsSpace(r[0]) {
      SkipSame(s[1..], r[1..]);
    }
  }

  lemma FrontSame(s: string, r: string)
    requires Respaced(s, r) && NoSpace(r)
    ensures s == "" <==> r == ""
    ensures r != "" ==> s[0] == r[0] && Respaced(s[1..], r[1..])
  {
  }

  lemma SpaceInFront(s: string, r: string)
    requires Respaced(s, r) && r != ""
    ensures s != "" && if r[0] == ' ' then IsSpace(s[0]) else s[0] == r[0] && Respaced(s[1..], r[1..])
  {
    if r[0] == ' ' {
      var k :| 1 <= k <= |s| && Spaces(s[..k]);
      assert s[..k][0] == s[0];
    }
  }

  lemma {:induction false} WordSame(s: string, r: string)
    requires Respaced(s, r)
    ensures Respaced(SkipWord(s), SkipWord(r))
    ensures s[..|s| - |SkipWord(s)|] == r[..|r| - |SkipWord(r)|]
    decreases |r|
  {
    if r != "" {
      SpaceInFront(s, r);
      if !IsSpace(r[0]) && !IsSymbol(r[0]) {
        WordSame(s[1..], r[1..]);
        var m, n := |s| - |SkipWord(s)|, |r| - |SkipWord(r)|;
        assert s[..m] == [s[0]] + s[1..][..m - 1] && r[..n] == [r[0]] + r[1..][..n - 1];
      }
    }
  }

  /** Behind the first character. */
  lemma NextSame(p: string, q: string)
    requires Respaced(p, q) && q != "" && q[0] != ' '
    ensures p != "" && p[0] == q[0] && Respaced(p[1..], q[1..])
    ensures |p| > 1 <==> |q| > 1
    ensures |q| > 1 && q[1] == '>' ==> p[1] == '>' && Respaced(p[2..], q[2..])
    ensures |q| > 1 && q[1] != '>' ==> p[1] != '>'
  {
    if |q| > 1 {
      SpaceInFront(p[1..], q[1..]);
      assert p[1..][1..] == p[2..] && q[1..][1..] == q[2..];
    }
  }

  lemma TokenSame(s: string, r: string)
    requires Respaced(s, r)
    ensures var a, b := GetToken(s), GetToken(r);
            a.0 == b.0 && Respaced(a.1, b.1) && Respaced(a.2, b.2) && Respaced(a.3, b.3)
            && (a.0 == Text ==> WordOf(a.1, a.2).text == WordOf(b.1, b.2).text)
  {
    SkipSame(s, r);
    var p, q := SkipSpace(s), SkipSpace(r);
    FrontSame(p, q);
    hide SkipSpace, Respaced, SkipWord;
    if q != "" {
      NextSame(p, q);
      WordSame(p, q);
    }
    SkipSame(GetToken(s).2, GetToken(r).2);
  }

  lemma PeekSame(p: string, q: string, toks: string)
    requires Respaced(p, q) && NoSpace(q)
    ensures Peek(p, toks) <==> Peek(q, toks)
  {
    FrontSame(p, q);
  }

  lemma {:induction false} AddArgSame(c: Cmd<Word>, d: Cmd<Word>, v: Word, w: Word)
    requires Erase(c) == Erase(d) && v.text == w.text
    ensures Erase(AddArg(c, v)) == Erase(AddArg(d, w))
  {
    match c
    case Exec(args) =>
      assert Texts(args + [v]) == Texts(args) + [v.text];
      assert Texts(d.args + [w]) == Texts(d.args) + [w.text];
    case Redir(e, _, _) => AddArgSame(e, d.cmd, v, w);
    case _ =>
  }

  lemma {:induction false} RedirsSame(c: Cmd<Word>, d: Cmd<Word>, s: string, r: string)
    requires Erase(c) == Erase(d) && Respaced(s, r)
    ensures Same(ParseRedirs(c, s), ParseRedirs(d, r))
    decreases |r|, 0
  {
    hide GetToken, Respaced, SkipSpace;
    SkipSame(s, r);
    var p, q := SkipSpace(s), SkipSpace(r);
    PeekSame(p, q, "<>");
    if Peek(q, "<>") {
      TokenSame(p, q);
      TokenSame(GetToken(p).3, GetToken(q).3);
      var t, u := GetToken(GetToken(p).3), GetToken(GetToken(q).3);
      if t.0 == Text {
        RedirsSame(Redir(c, KindOf(GetToken(p).0), WordOf(t.1, t.2)), Redir(d, KindOf(GetToken(q).0), WordOf(u.1, u.2)),
                   t.3, u.3);
      }
    }
  }

  lemma {:induction false} ArgsSame(c: Cmd<Word>, d: Cmd<Word>, argc: nat, s: string, r: string)
    requires Erase(c) == Erase(d) && Respaced(s, r)
    ensures Same(ParseArgs(c, argc, s), ParseArgs(d, argc, r))
    decreases |r|, 0
  {
    hide GetToken, Respaced, SkipSpace, ParseRedirs, ParseArgs, AddArg;
    SkipSame(s, r);
    var p, q := SkipSpace(s), SkipSpace(r);
    ArgsSkip(c, argc, s);
    ArgsSkip(d, argc, r);
    Skipped(s);
    Skipped(r);
    PeekSame(p, q, "|)&;");
    if Peek(q, "|)&;") {
      ArgsStop(c, argc, p);
      ArgsStop(d, argc, q);
    } else {
      ArgsStep(c, argc, p);
      ArgsStep(d, argc, q);
      TokenSame(p, q);
      var t, u := GetToken(p), GetToken(q);
      if t.0 == Text {
        AddArgSame(c, d, WordOf(t.1, t.2), WordOf(u.1, u.2));
        var e, f := AddArg(c, WordOf(t.1, t.2)), AddArg(d, WordOf(u.1, u.2));
        RedirsSame(e, f, t.3, u.3);
        if ParseRedirs(e, t.3).Ok? && argc + 1 < MAXARGS {
          ArgsSame(ParseRedirs(e, t.3).cmd, ParseRedirs(f, u.3).cmd, argc + 1, ParseRedirs(e, t.3).rest,
                   ParseRedirs(f, u.3).rest);
        }
      }
    }
  }

  lemma {:induction false} BlockSame(s: string, r: string)
    requires Respaced(s, r) && NoSpace(r) && Peek(r, "(")
    ensures Peek(s, "(") && Same(ParseBlock(s), ParseBlock(r))
    decreases |r|, 1
  {
    hide GetToken, Respaced, SkipSpace, ParseRedirs, ParseLine;
    PeekSame(s, r, "(");
    TokenSame(s, r);
    BlockStep(s);
    BlockStep(r);
    LineSame(GetToken(s).3, GetToken(r).3);
    var a, b := ParseLine(GetToken(s).3), ParseLine(GetToken(r).3);
    if a.Ok? {
      SkipSame(a.rest, b.rest);
      var p, q := SkipSpace(a.rest), SkipSpace(b.rest);
      PeekSame(p, q, ")");
      TokenSame(p, q);
      RedirsSame(a.cmd, b.cmd, GetToken(p).3, GetToken(q).3);
    }
  }

  lemma {:induction false} ExecSame(s: string, r: string)
    requires Respaced(s, r)
    ensures Same(ParseExec(s), ParseExec(r))
    decreases |r|, 2
  {
    hide GetToken, Respaced, SkipSpace, ParseRedirs, ParseArgs, ParseBlock;
    SkipSame(s, r);
    var p, q := SkipSpace(s), SkipSpace(r);
    PeekSame(p, q, "(");
    if Peek(q, "(") {
      BlockSame(p, q);
    } else {
      RedirsSame(Exec([]), Exec([]), p, q);
      var a, b := ParseRedirs(Exec([]), p), ParseRedirs(Exec([]), q);
      if a.Ok? {
        ArgsSame(a.cmd, b.cmd, 0, a.rest, b.rest);
      }
    }
  }

  lemma {:induction false} PipeSame(s: string, r: string)
    requires Respaced(s, r)
    ensures Same(ParsePipe(s), ParsePipe(r))
    decreases |r|, 3
  {
    hide GetToken, Respaced, SkipSpace, ParseExec;
    ExecSame(s, r);
    var a, b := ParseExec(s), ParseExec(r);
    if a.Ok? {
      SkipSame(a.rest, b.rest);
      var p, q := SkipSpace(a.rest), SkipSpace(b.rest);
      PeekSame(p, q, "|");
      if Peek(q, "|") {
        TokenSame(p, q);
        PipeSame(After(p), After(q));
      }
    }
  }

  lemma {:induction false} TailSame(c: Cmd<Word>, d: Cmd<Word>, s: string, r: string)
    requires Erase(c) == Erase(d) && Respaced(s, r)
    ensures Same(ParseTail(c, s), ParseTail(d, r))
    decreases |r|, 4
  {
    hide GetToken, Respaced, SkipSpace, ParseLine;
    SkipSame(s, r);
    var p, q := SkipSpace(s), SkipSpace(r);
    PeekSame(p, q, "&");
    PeekSame(p, q, ";");
    if Peek(q, "&") {
      TokenSame(p, q);
      TailSame(Back(c), Back(d), After(p), After(q));
    } else if Peek(q, ";") {
      TokenSame(p, q);
      LineSame(After(p), After(q));
    }
  }

  lemma {:induction false} LineSame(s: string, r: string)
    requires Respaced(s, r)
    ensures Same(ParseLine(s), ParseLine(r))
    decreases |r|, 5
  {
    hide Respaced, ParsePipe, ParseTail;
    PipeSame(s, r);
    var a, b := ParsePipe(s), ParsePipe(r);
    if a.Ok? {
      TailSame(a.cmd, b.cmd, a.rest, b.rest);
    }
  }

  /** Any line: with other space characters, and more of them, it is the same command, or as much an error. */
  lemma SpacingIsFree(s: string, r: string)
    requires Respaced(s, r)
    ensures ParseCmd(s).Ok? <==> ParseCmd(r).Ok?
    ensures ParseCmd(s).Ok? ==> Erase(ParseCmd(s).cmd) == Erase(ParseCmd(r).cmd)
  {
    hide Respaced, ParseLine, SkipSpace;
    LineSame(s, r);
    var a, b := ParseLine(s), ParseLine(r);
    if a.Ok? {
      SkipSame(a.rest, b.rest);
      FrontSame(SkipSpace(a.rest), SkipSpace(b.rest));
    }
  }

  /** A command printed with any space characters between its words is read back. */
  lemma RoundTripSpaced(t: Cmd<string>, s: string)
    requires WellFormed(t) && Respaced(s, PrintLine(t))
    ensures ParseCmd(s).Ok? && Erase(ParseCmd(s).cmd) == t
  {
    hide ParseCmd, PrintLine, Respaced;
    RoundTrip(t);
    SpacingIsFree(s, PrintLine(t));
  }

  lemma WordsPrinted(ws: seq<string>)
    ensures PrintLine(Exec(ws)) == PrintWords(ws)
  {
    var t := Exec(ws);
    assert PrintExec(t) == PrintWords(ws);
    assert PrintPipe(t) == PrintExec(t);
    assert PrintBack(t) == PrintPipe(t);
  }

  /** The line as gets leaves it: a word, and a newline that is no part of it. */
  lemma OneWord(w: string)
    requires w != "" && forall i :: 0 <= i < |w| ==>
               w[i] !in [' ', '\t', '\r', '\n', '\U{b}', '<', '|', '>', '&', ';', '(', ')', '\0']
    ensures ParseCmd(w + "\n").Ok? && Erase(ParseCmd(w + "\n").cmd) == Exec([w])
  {
    hide ParseCmd;
    var s := "\n";
    assert PrintWords([w][1..]) == "" && PrintWords([w]) == w + " " + "" == w + " ";
    assert Spaces(s[..1]) && Respaced(s[1..], " "[1..]) && Respaced(s, " ");
    WordRespaced(w, s, " ");
    WordsPrinted([w]);
    RoundTripSpaced(Exec([w]), w + s);
  }

  lemma {:induction false} WordRespaced(w: string, s: string, r: string)
    requires (forall i :: 0 <= i < |w| ==> IsWordChar(w[i])) && Respaced(s, r)
    ensures Respaced(w + s, w + r)
  {
    if w == "" {
      assert w + s == s && w + r == r;
    } else {
      WordRespaced(w[1..], s, r);
      assert (w + s)[1..] == w[1..] + s && (w + r)[1..] == w[1..] + r;
    }
  }

  lemma {:induction false} WordsSplit(ws: seq<string>, k: nat)
    requires k <= |ws|
    ensures PrintWords(ws) == PrintWords(ws[..k]) + PrintWords(ws[k..])
  {
    if k == 0 {
      assert ws[k..] == ws;
    } else {
      WordsSplit(ws[1..], k - 1);
      assert ws[..k][1..] == ws[1..][..k - 1] && ws[1..][k - 1..] == ws[k..];
    }
  }

  lemma TenthArg(c: Cmd<Word>, w: string, tail: string)
    requires IsWord(w) && NoSpace(tail)
    ensures Cont(true, 9, c, w + " " + tail) == Panic
  {
    var r := w + " " + tail;
    WordToken(w, tail);
    assert r[0] == w[0] && IsWordChar(w[0]);
    assert ParseRedirs(c, r) == Ok(c, r);
  }

  lemma TooManyArgs(ws: seq<string>)
    requires (forall i :: 0 <= i < |ws| ==> IsWord(ws[i])) && |ws| > 9
    ensures ParseExec(PrintWords(ws)) == Panic
  {
    hide Cont, IsWord, GetToken, ParseExec, PrintWords, ParseLine;
    var tail, more := PrintWords(ws[9..]), PrintWords(ws[10..]);
    assert more + "" == more && tail + "" == tail && PrintWords(ws) + "" == PrintWords(ws);
    WordsNoSpace(ws[10..], "");
    WordsNoSpace(ws[9..], "");
    WordsNoSpace(ws, "");
    WordsSplit(ws, 9);
    var all := WordsParsed([], ws[..9], tail);
    FirstWord(ws[9..]);
    assert ws[9..][1..] == ws[10..];
    TenthArg(Exec(all), ws[9], more);
    StartExec(PrintWords(ws), ws, "");
  }

  lemma FirstWord(ws: seq<string>)
    requires ws != []
    ensures PrintWords(ws) == ws[0] + " " + PrintWords(ws[1..])
  {
  }

  /** Nine arguments are the most that parseexec takes. */
  lemma ArgumentsCounted(ws: seq<string>)
    requires forall i :: 0 <= i < |ws| ==> IsWord(ws[i])
    ensures ParseCmd(PrintWords(ws)).Ok? <==> |ws| <= 9
  {
    hide ParseExec, IsWord, PrintWords, ParseTail;
    if |ws| <= 9 {
      WordsPrinted(ws);
      RoundTrip(Exec(ws));
    } else {
      TooManyArgs(ws);
      assert ParsePipe(PrintWords(ws)) == Panic;
    }
  }

  // ----- nulterminate -----

  /** r is the end of line s. */
  predicate Suffix(s: string, r: string) { |r| <= |s| && r == s[|s| - |r|..] }

  /** The word is a piece of the line, of word characters, and what stands behind it is none. */
  ghost predicate WordAt(s: string, w: Word) {
    && w.end < w.start <= |s| && w.text == s[|s| - w.start..|s| - w.end]
    && (forall i :: 0 <= i < |w.text| ==> !IsSpace(w.text[i]) && !IsSymbol(w.text[i]))
    && (w.end > 0 ==> IsSpace(s[|s| - w.end]) || IsSymbol(s[|s| - w.end]))
  }

  ghost predicate WordsAt(s: string, c: Cmd<Word>) {
    match c
    case Exec(args) => forall i :: 0 <= i < |args| ==> WordAt(s, args[i])
    case Redir(d, _, f) => WordsAt(s, d) && WordAt(s, f)
    case Pipe(l, r) => WordsAt(s, l) && WordsAt(s, r)
    case List(l, r) => WordsAt(s, l) && WordsAt(s, r)
    case Back(d) => WordsAt(s, d)
  }

  lemma SuffixOf(s: string, r: string, k: nat)
    requires Suffix(s, r) && k <= |r|
    ensures Suffix(s, r[k..])
  {
  }

  lemma {:induction false} SpaceSuffix(s: string, r: string)
    requires Suffix(s, r)
    ensures Suffix(s, SkipSpace(r))
  {
    if r != [] && IsSpace(r[0]) {
      SuffixOf(s, r, 1);
      SpaceSuffix(s, r[1..]);
    }
  }

  lemma {:induction false} WordSuffix(s: string, r: string)
    requires Suffix(s, r)
    ensures Suffix(s, SkipWord(r))
    ensures forall i :: 0 <= i < |r| - |SkipWord(r)| ==> !IsSpace(r[i]) && !IsSymbol(r[i])
  {
    if r != [] && !IsSpace(r[0]) && !IsSymbol(r[0]) {
      SuffixOf(s, r, 1);
      WordSuffix(s, r[1..]);
      assert forall i :: 0 < i < |r| ==> r[i] == r[1..][i - 1];
    }
  }

  lemma TextAt(s: string, q: string)
    requires Suffix(s, q) && q != [] && !IsSpace(q[0]) && !IsSymbol(q[0])
    ensures Suffix(s, SkipWord(q)) && WordAt(s, WordOf(q, SkipWord(q)))
  {
    WordSuffix(s, q);
    var e := SkipWord(q);
    hide SkipWord;
    SkipWordLess(q);
    assert q[..|q| - |e|] == s[|s| - |q|..|s| - |e|];
    assert e != [] ==> s[|s| - |e|] == e[0];
  }

  lemma SkipWordLess(q: string)
    requires q != [] && !IsSpace(q[0]) && !IsSymbol(q[0])
    ensures |SkipWord(q)| < |q|
  {
  }

  lemma TokenAt(s: string, r: string)
    requires Suffix(s, r)
    ensures var t := GetToken(r);
            Suffix(s, t.1) && Suffix(s, t.2) && Suffix(s, t.3)
            && (t.0 == Text ==> WordAt(s, WordOf(t.1, t.2)))
  {
    hide WordAt, Suffix, IsSpace, IsSymbol, SkipWord, SkipSpace;
    SpaceSuffix(s, r);
    var q := SkipSpace(r);
    if q != [] {
      SuffixOf(s, q, 1);
      if |q| > 1 {
        SuffixOf(s, q, 2);
      }
      if !IsSymbol(q[0]) {
        TextAt(s, q);
      }
    }
    SpaceSuffix(s, GetToken(r).2);
  }

  lemma {:induction false} AddArgAt(s: string, c: Cmd<Word>, w: Word)
    requires WordsAt(s, c) && WordAt(s, w)
    ensures WordsAt(s, AddArg(c, w))
  {
    hide WordAt;
    match c
    case Redir(d, _, _) => AddArgAt(s, d, w);
    case _ =>
  }

  lemma {:induction false} RedirsAt(s: string, c: Cmd<Word>, r: string)
    requires Suffix(s, r) && WordsAt(s, c) && ParseRedirs(c, r).Ok?
    ensures WordsAt(s, ParseRedirs(c, r).cmd) && Suffix(s, ParseRedirs(c, r).rest)
    decreases |r|, 0
  {
    hide GetToken, WordAt, Suffix;
    SpaceSuffix(s, r);
    var q := SkipSpace(r);
    if Peek(q, "<>") {
      TokenAt(s, q);
      TokenAt(s, GetToken(q).3);
      var f := GetToken(GetToken(q).3);
      RedirsAt(s, Redir(c, KindOf(GetToken(q).0), WordOf(f.1, f.2)), f.3);
    }
  }

  lemma BlockStep(r: string)
    requires Peek(r, "(")
    ensures After(r) == GetToken(r).3 && GetToken(r).0 != End
    ensures var p := ParseLine(GetToken(r).3);
      && (p.Panic? ==> ParseBlock(r) == Panic)
      && (p.Ok? ==> var q := SkipSpace(p.rest);
            ParseBlock(r) == if Peek(q, ")") then ParseRedirs(p.cmd, GetToken(q).3) else Panic)
  {
    hide ParseLine, ParseRedirs;
  }

  lemma ArgsSkip(c: Cmd<Word>, argc: nat, r: string)
    ensures ParseArgs(c, argc, SkipSpace(r)) == ParseArgs(c, argc, r)
  {
    hide GetToken, ParseRedirs;
    Skipped(r);
  }

  lemma ArgsStop(c: Cmd<Word>, argc: nat, q: string)
    requires SkipSpace(q) == q && Peek(q, "|)&;")
    ensures ParseArgs(c, argc, q) == Ok(c, q)
  {
  }

  lemma ArgsStep(c: Cmd<Word>, argc: nat, q: string)
    requires SkipSpace(q) == q && !Peek(q, "|)&;")
    ensures var t := GetToken(q);
      && (t.0 == End ==> ParseArgs(c, argc, q) == Ok(c, t.3))
      && (t.0 != End && (t.0 != Text || argc + 1 >= MAXARGS) ==> ParseArgs(c, argc, q) == Panic)
      && (t.0 == Text && argc + 1 < MAXARGS ==>
            var p := ParseRedirs(AddArg(c, WordOf(t.1, t.2)), t.3);
            ParseArgs(c, argc, q) == if p.Panic? then Panic else ParseArgs(p.cmd, argc + 1, p.rest))
  {
    hide GetToken, ParseRedirs, SkipSpace, AddArg;
  }

  lemma {:induction false} ArgsAt(s: string, c: Cmd<Word>, argc: nat, r: string)
    requires Suffix(s, r) && WordsAt(s, c) && ParseArgs(c, argc, r).Ok?
    ensures WordsAt(s, ParseArgs(c, argc, r).cmd) && Suffix(s, ParseArgs(c, argc, r).rest)
    decreases |r|, 0
  {
    hide GetToken, WordAt, Suffix, ParseRedirs, WordsAt;
    SpaceSuffix(s, r);
    var q := SkipSpace(r);
    if !Peek(q, "|)&;") {
      TokenAt(s, q);
      var t := GetToken(q);
      if t.0 == Text {
        AddArgAt(s, c, WordOf(t.1, t.2));
        RedirsAt(s, AddArg(c, WordOf(t.1, t.2)), t.3);
        var p := ParseRedirs(AddArg(c, WordOf(t.1, t.2)), t.3);
        ArgsAt(s, p.cmd, argc + 1, p.rest);
      }
    }
  }

  lemma {:induction false} ExecAt(s: string, r: string)
    requires Suffix(s, r) && ParseExec(r).Ok?
    ensures WordsAt(s, ParseExec(r).cmd) && Suffix(s, ParseExec(r).rest)
    decreases |r|, 2
  {
    hide GetToken, WordAt, Suffix, ParseRedirs, ParseArgs, ParseLine;
    SpaceSuffix(s, r);
    var q := SkipSpace(r);
    if Peek(q, "(") {
      TokenAt(s, q);
      LineAt(s, After(q));
      var p := ParseLine(After(q));
      SpaceSuffix(s, p.rest);
      var z := SkipSpace(p.rest);
      TokenAt(s, z);
      RedirsAt(s, p.cmd, After(z));
    } else {
      RedirsAt(s, Exec([]), q);
      var p := ParseRedirs(Exec([]), q);
      ArgsAt(s, p.cmd, 0, p.rest);
    }
  }

  lemma {:induction false} PipeAt(s: string, r: string)
    requires Suffix(s, r) && ParsePipe(r).Ok?
    ensures WordsAt(s, ParsePipe(r).cmd) && Suffix(s, ParsePipe(r).rest)
    decreases |r|, 3
  {
    hide GetToken, WordAt, Suffix, ParseExec;
    ExecAt(s, r);
    var p := ParseExec(r);
    SpaceSuffix(s, p.rest);
    var q := SkipSpace(p.rest);
    if Peek(q, "|") {
      TokenAt(s, q);
      PipeAt(s, After(q));
    }
  }

  lemma {:induction false} TailAt(s: string, c: Cmd<Word>, r: string)
    requires Suffix(s, r) && WordsAt(s, c) && ParseTail(c, r).Ok?
    ensures WordsAt(s, ParseTail(c, r).cmd) && Suffix(s, ParseTail(c, r).rest)
    decreases |r|, 4
  {
    hide GetToken, WordAt, Suffix, ParseLine;
    SpaceSuffix(s, r);
    var q := SkipSpace(r);
    TokenAt(s, q);
    if Peek(q, "&") {
      TailAt(s, Back(c), After(q));
    } else if Peek(q, ";") {
      LineAt(s, After(q));
    }
  }

  lemma {:induction false} LineAt(s: string, r: string)
    requires Suffix(s, r) && ParseLine(r).Ok?
    ensures WordsAt(s, ParseLine(r).cmd) && Suffix(s, ParseLine(r).rest)
    decreases |r|, 5
  {
    hide GetToken, WordAt, Suffix, ParsePipe, ParseTail, WordsAt;
    PipeAt(s, r);
    var p := ParsePipe(r);
    TailAt(s, p.cmd, p.rest);
  }

  ghost predicate EndsOne(ws: seq<Word>, e: nat) { exists i :: 0 <= i < |ws| && ws[i].end == e }

  /** Some word of the command ends where e bytes of the line are left. */
  ghost predicate Ends(c: Cmd<Word>, e: nat) {
    match c
    case Exec(args) => EndsOne(args, e)
    case Redir(d, _, f) => Ends(d, e) || f.end == e
    case Pipe(l, r) => Ends(l, e) || Ends(r, e)
    case List(l, r) => Ends(l, e) || Ends(r, e)
    case Back(d) => Ends(d, e)
  }

  ghost predicate IsWordOf(c: Cmd<Word>, w: Word) {
    match c
    case Exec(args) => w in args
    case Redir(d, _, f) => IsWordOf(d, w) || w == f
    case Pipe(l, r) => IsWordOf(l, w) || IsWordOf(r, w)
    case List(l, r) => IsWordOf(l, w) || IsWordOf(r, w)
    case Back(d) => IsWordOf(d, w)
  }

  lemma {:induction false} WordOfAt(s: string, c: Cmd<Word>, w: Word)
    requires WordsAt(s, c) && IsWordOf(c, w)
    ensures WordAt(s, w) && Ends(c, w.end)
  {
    hide WordAt;
    match c
    case Exec(args) =>
    case Redir(d, _, f) => if w != f { WordOfAt(s, d, w); }
    case Pipe(l, r) => if IsWordOf(l, w) { WordOfAt(s, l, w); } else { WordOfAt(s, r, w); }
    case List(l, r) => if IsWordOf(l, w) { WordOfAt(s, l, w); } else { WordOfAt(s, r, w); }
    case Back(d) => WordOfAt(s, d, w);
  }

  /** Words end at the end of the line, or at a byte that is no part of any word. */
  lemma {:induction false} EndsAt(s: string, c: Cmd<Word>, e: nat)
    requires WordsAt(s, c) && Ends(c, e)
    ensures e < |s| && (e > 0 ==> IsSpace(s[|s| - e]) || IsSymbol(s[|s| - e]))
  {
    match c
    case Exec(args) =>
      var i :| 0 <= i < |args| && args[i].end == e;
      assert WordAt(s, args[i]);
    case Redir(d, _, f) => if f.end != e { EndsAt(s, d, e); }
    case Pipe(l, r) => if Ends(l, e) { EndsAt(s, l, e); } else { EndsAt(s, r, e); }
    case List(l, r) => if Ends(l, e) { EndsAt(s, l, e); } else { EndsAt(s, r, e); }
    case Back(d) => EndsAt(s, d, e);
  }

  lemma EndsMore(args: seq<Word>, i: nat)
    requires i < |args|
    ensures forall e: nat :: EndsOne(args[..i + 1], e) <==> EndsOne(args[..i], e) || args[i].end == e
  {
    forall e: nat
      ensures EndsOne(args[..i + 1], e) <==> EndsOne(args[..i], e) || args[i].end == e
    {
      if EndsOne(args[..i], e) {
        var j :| 0 <= j < i && args[..i][j].end == e;
        assert args[..i + 1][j].end == e;
      }
      assert args[..i + 1][i] == args[i];
    }
  }

  /** nulterminate writes a NUL behind each word, and nothing else. */
  method NulTerminate(s: string, c: Cmd<Word>, buf: array<char>)
    requires buf.Length == |s| + 1 && WordsAt(s, c)
    modifies buf
    ensures forall k :: 0 <= k <= |s| ==> buf[k] == if Ends(c, |s| - k) then '\0' else old(buf[k])
    decreases c
  {
    match c {
      case Exec(args) =>
        var i := 0;
        while i < |args|
          invariant 0 <= i <= |args|
          invariant forall k :: 0 <= k <= |s| ==> buf[k] == if EndsOne(args[..i], |s| - k) then '\0' else old(buf[k])
        {
          assert WordAt(s, args[i]);
          buf[|s| - args[i].end] := '\0';
          EndsMore(args, i);
          i := i + 1;
        }
        assert args[..|args|] == args;
      case Redir(d, _, f) =>
        NulTerminate(s, d, buf);
        buf[|s| - f.end] := '\0';
      case Pipe(l, r) =>
        NulTerminate(s, l, buf);
        NulTerminate(s, r, buf);
      case List(l, r) =>
        NulTerminate(s, l, buf);
        NulTerminate(s, r, buf);
      case Back(d) =>
        NulTerminate(s, d, buf);
    }
  }

  /** The buffer behind line s, where the words of c have been terminated. */
  ghost predicate TerminatedIn(s: string, c: Cmd<Word>, buf: string) {
    |buf| == |s| + 1 && forall k :: 0 <= k <= |s| ==> buf[k] == if Ends(c, |s| - k) then '\0' else (s + ['\0'])[k]
  }

  lemma WordSurvives(s: string, c: Cmd<Word>, w: Word, buf: string, i: nat)
    requires WordsAt(s, c) && IsWordOf(c, w) && TerminatedIn(s, c, buf)
    ensures w.end < w.start <= |s| && |w.text| == w.start - w.end && buf[|s| - w.end] == '\0'
    ensures i < |w.text| ==> buf[|s| - w.start + i] == w.text[i]
  {
    hide WordsAt, IsWordOf, Ends;
    WordOfAt(s, c, w);
    if i < |w.text| {
      var e := w.start - i;
      assert w.text[i] == s[|s| - e];
      if Ends(c, e) {
        EndsAt(s, c, e);
        assert false;
      }
    }
  }

  /** No word loses a byte to a NUL: every word stands in the buffer whole, with a NUL behind it. */
  lemma WordsSurvive(s: string, w: Word, buf: string, i: nat)
    requires ParseCmd(s).Ok? && IsWordOf(ParseCmd(s).cmd, w) && TerminatedIn(s, ParseCmd(s).cmd, buf)
    ensures w.end < w.start <= |s| && |w.text| == w.start - w.end && buf[|s| - w.end] == '\0'
    ensures i < |w.text| ==> buf[|s| - w.start + i] == w.text[i]
  {
    hide ParseLine, WordsAt, IsWordOf, TerminatedIn;
    assert Suffix(s, s);
    LineAt(s, s);
    WordSurvives(s, ParseCmd(s).cmd, w, buf, i);
  }
}

/** The parser as written: a cursor that advances through the line. */
module ShellCursor {
  import P = ShellParser

  class Parser {
    const line: string
    var ps: nat

    predicate Inside()
      reads this
    {
      ps <= |line|
    }

    function Rest(): string
      requires Inside()
      reads this
    {
      line[ps..]
    }

    constructor (s: string)
      ensures Inside() && line == s && Rest() == s
    {
      line := s;
      ps := 0;
    }

    lemma Ahead()
      requires Inside() && ps < |line|
      ensures Rest()[0] == line[ps] && Rest()[1..] == line[ps + 1..]
    {
    }

    method SkipSpaces()
      requires Inside()
      modifies this
      ensures Inside() && ps >= old(ps) && Rest() == P.SkipSpace(old(Rest()))
    {
      while ps < |line| && P.IsSpace(line[ps])
        invariant Inside() && ps >= old(ps) && P.SkipSpace(Rest()) == P.SkipSpace(old(Rest()))
        decreases |line| - ps
      {
        Ahead();
        ps := ps + 1;
      }
    }

    method Peek(toks: string) returns (b: bool)
      requires Inside()
      modifies this
      ensures Inside() && ps >= old(ps) && Rest() == P.SkipSpace(old(Rest())) && b == P.Peek(Rest(), toks)
      ensures P.SkipSpace(Rest()) == Rest()
    {
      P.Skipped(Rest());
      SkipSpaces();
      b := ps < |line| && line[ps] in toks;
    }

    /** parsecmd's look at what is left over. */
    method AtEnd() returns (b: bool)
      requires Inside()
      modifies this
      ensures b == (P.SkipSpace(old(Rest())) == [])
    {
      var _ := Peek("");
      b := ps == |line|;
    }

    method GetToken() returns (t: P.Token, q: nat, eq: nat)
      requires Inside()
      modifies this
      ensures Inside() && old(ps) <= q <= eq <= ps && P.GetToken(old(Rest())) == (t, line[q..], line[eq..], Rest())
      ensures t != P.End ==> q < eq
    {
      SkipSpaces();
      q := ps;
      ghost var r := Rest();
      if ps == |line| {
        t := P.End;
      } else if line[ps] == '>' {
        ps := ps + 1;
        t := P.Symbol('>');
        if ps < |line| && line[ps] == '>' {
          t := P.Appends;
          ps := ps + 1;
        }
      } else if P.IsSymbol(line[ps]) {
        t := P.Symbol(line[ps]);
        ps := ps + 1;
      } else {
        t := P.Text;
        while ps < |line| && !P.IsSpace(line[ps]) && !P.IsSymbol(line[ps])
          invariant Inside() && ps >= q && P.SkipWord(Rest()) == P.SkipWord(r)
          decreases |line| - ps
        {
          Ahead();
          ps := ps + 1;
        }
      }
      eq := ps;
      SkipSpaces();
      assert r == line[q..];
    }

    method ParseRedirs(c: P.Cmd<P.Word>) returns (ok: bool, cmd: P.Cmd<P.Word>)
      requires Inside()
      modifies this
      ensures Inside() && ps >= old(ps) && ok == P.ParseRedirs(c, old(Rest())).Ok?
      ensures ok ==> P.ParseRedirs(c, old(Rest())) == P.Ok(cmd, Rest())
    {
      hide P.GetToken, P.KindOf, P.SkipSpace, P.IsSpace;
      cmd := c;
      var more := Peek("<>");
      while more
        invariant Inside() && ps >= old(ps) && P.SkipSpace(Rest()) == Rest() && more == P.Peek(Rest(), "<>")
        invariant P.ParseRedirs(cmd, Rest()) == P.ParseRedirs(c, old(Rest()))
        decreases |line| - ps
      {
        var tok, _, _ := GetToken();
        var t, q, eq := GetToken();
        if t != P.Text {
          return false, cmd;
        }
        cmd := P.Redir(cmd, P.KindOf(tok), P.WordOf(line[q..], line[eq..]));
        more := Peek("<>");
      }
      ok := true;
    }

    method ParseExec() returns (ok: bool, cmd: P.Cmd<P.Word>)
      requires Inside()
      modifies this
      ensures Inside() && ps >= old(ps) && ok == P.ParseExec(old(Rest())).Ok?
      ensures ok ==> P.ParseExec(old(Rest())) == P.Ok(cmd, Rest())
      decreases |line| - ps, 2
    {
      hide P.ParseRedirs, P.GetToken, P.ParseArgs, P.ParseBlock;
      var block := Peek("(");
      if block {
        ok, cmd := ParseBlock();
        return;
      }
      ok, cmd := ParseRedirs(P.Exec([]));
      if !ok {
        return;
      }
      ok, cmd := ParseArgs(cmd);
    }

    /** parseexec's loop over the arguments. */
    method ParseArgs(c: P.Cmd<P.Word>) returns (ok: bool, cmd: P.Cmd<P.Word>)
      requires Inside()
      modifies this
      ensures Inside() && ps >= old(ps) && ok == P.ParseArgs(c, 0, old(Rest())).Ok?
      ensures ok ==> P.ParseArgs(c, 0, old(Rest())) == P.Ok(cmd, Rest())
    {
      hide P.ParseRedirs, P.GetToken, P.AddArg, P.SkipSpace, P.IsSpace, P.ParseArgs, P.Peek, P.WordOf;
      cmd := c;
      P.ArgsSkip(c, 0, Rest());
      var argc := 0;
      var stop := Peek("|)&;");
      while !stop
        invariant Inside() && ps >= old(ps) && P.SkipSpace(Rest()) == Rest() && stop == P.Peek(Rest(), "|)&;")
        invariant P.ParseArgs(cmd, argc, Rest()) == P.ParseArgs(c, 0, old(Rest()))
        decreases |line| - ps
      {
        P.ArgsStep(cmd, argc, Rest());
        var tok, q, eq := GetToken();
        if tok == P.End {
          break;
        }
        if tok != P.Text {
          return false, cmd;
        }
        cmd := P.AddArg(cmd, P.WordOf(line[q..], line[eq..]));
        argc := argc + 1;
        if argc >= P.MAXARGS {
          return false, cmd;
        }
        ok, cmd := ParseRedirs(cmd);
        if !ok {
          return;
        }
        P.ArgsSkip(cmd, argc, Rest());
        stop := Peek("|)&;");
      }
      if stop {
        P.ArgsStop(cmd, argc, Rest());
      }
      ok := true;
    }

    method ParseBlock() returns (ok: bool, cmd: P.Cmd<P.Word>)
      requires Inside() && P.Peek(Rest(), "(")
      modifies this
      ensures Inside() && ps >= old(ps) && ok == P.ParseBlock(old(Rest())).Ok?
      ensures ok ==> P.ParseBlock(old(Rest())) == P.Ok(cmd, Rest())
      decreases |line| - ps, 1
    {
      hide P.ParseBlock, P.ParseLine, P.ParseRedirs, P.GetToken, P.SkipSpace, P.After, P.WordOf;
      P.BlockStep(Rest());
      var _, _, _ := GetToken();
      ok, cmd := ParseLine();
      if !ok {
        return;
      }
      ok := Peek(")");
      if !ok {
        return;
      }
      var _, _, _ := GetToken();
      ok, cmd := ParseRedirs(cmd);
    }

    method ParsePipe() returns (ok: bool, cmd: P.Cmd<P.Word>)
      requires Inside()
      modifies this
      ensures Inside() && ps >= old(ps) && ok == P.ParsePipe(old(Rest())).Ok?
      ensures ok ==> P.ParsePipe(old(Rest())) == P.Ok(cmd, Rest())
      decreases |line| - ps, 3
    {
      ok, cmd := ParseExec();
      if !ok {
        return;
      }
      var bar := Peek("|");
      if bar {
        var _, _, _ := GetToken();
        var right;
        ok, right := ParsePipe();
        cmd := P.Pipe(cmd, right);
      }
    }

    method ParseLine() returns (ok: bool, cmd: P.Cmd<P.Word>)
      requires Inside()
      modifies this
      ensures Inside() && ps >= old(ps) && ok == P.ParseLine(old(Rest())).Ok?
      ensures ok ==> P.ParseLine(old(Rest())) == P.Ok(cmd, Rest())
      decreases |line| - ps, 4
    {
      ok, cmd := ParsePipe();
      if !ok {
        return;
      }
      var amp := Peek("&");
      while amp
        invariant Inside() && ps >= old(ps) && P.SkipSpace(Rest()) == Rest() && amp == P.Peek(Rest(), "&")
        invariant P.ParseTail(cmd, Rest()) == P.ParseLine(old(Rest()))
        decreases |line| - ps
      {
        var _, _, _ := GetToken();
        cmd := P.Back(cmd);
        amp := Peek("&");
      }
      var semi := Peek(";");
      if semi {
        var _, _, _ := GetToken();
        var right;
        ok, right := ParseLine();
        cmd := P.List(cmd, right);
      }
    }
  }

  /** parsecmd up to nulterminate. */
  method Parse(s: string) returns (ok: bool, cmd: P.Cmd<P.Word>)
    ensures ok == P.ParseCmd(s).Ok?
    ensures ok ==> P.ParseCmd(s) == P.Ok(cmd, []) && P.WordsAt(s, cmd)
  {
    hide *;
    var parser := new Parser(s);
    ok, cmd := parser.ParseLine();
    if !ok {
      CmdFails(s);
      return;
    }
    CmdIs(s, cmd, parser.Rest());
    ok := parser.AtEnd();
  }

  /** parsecmd: parse, then terminate the words in place. */
  method ParseCmd(s: string, buf: array<char>) returns (ok: bool, cmd: P.Cmd<P.Word>)
    requires buf.Length == |s| + 1 && buf[..] == s + ['\0']
    modifies buf
    ensures ok == P.ParseCmd(s).Ok?
    ensures ok ==> P.ParseCmd(s) == P.Ok(cmd, []) && P.TerminatedIn(s, cmd, buf[..])
  {
    hide P.WordsAt, P.Ends, P.TerminatedIn, P.ParseCmd;
    ok, cmd := Parse(s);
    if ok {
      ghost var before := buf[..];
      P.NulTerminate(s, cmd, buf);
      assert forall k :: 0 <= k <= |s| ==> before[k] == (s + ['\0'])[k];
      Terminates(s, cmd, buf[..]);
    }
  }

  lemma CmdFails(s: string)
    requires !P.ParseLine(s).Ok?
    ensures !P.ParseCmd(s).Ok?
  {
    hide P.ParseLine;
  }

  lemma CmdIs(s: string, cmd: P.Cmd<P.Word>, rest: string)
    requires P.ParseLine(s) == P.Ok(cmd, rest)
    ensures P.ParseCmd(s).Ok? == (P.SkipSpace(rest) == [])
    ensures P.ParseCmd(s).Ok? ==> P.ParseCmd(s) == P.Ok(cmd, [])
    ensures P.WordsAt(s, cmd)
  {
    hide P.ParseLine, P.WordsAt;
    assert P.Suffix(s, s);
    P.LineAt(s, s);
  }

  lemma Terminates(s: string, cmd: P.Cmd<P.Word>, buf: string)
    requires |buf| == |s| + 1 && forall k :: 0 <= k <= |s| ==>
        buf[k] == if P.Ends(cmd, |s| - k) then '\0' else (s + ['\0'])[k]
    ensures P.TerminatedIn(s, cmd, buf)
  {
  }
}
