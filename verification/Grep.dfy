/** Patterns and their meaning (user/grep.c). Strings are the characters in front of the NUL. */
module Patterns {
  /** One character, or any number of one character; '.' stands for every character. */
  datatype Item = One(c: char) | Star(c: char)

  /** A pattern without its leading '^': its items, and whether it ends in '$'. */
  datatype Pattern = Pattern(items: seq<Item>, atEnd: bool)

  function Parse(re: string): Pattern {
    if re == "" then Pattern([], false)
    else if |re| > 1 && re[1] == '*' then
      var rest := Parse(re[2..]);
      Pattern([Star(re[0])] + rest.items, rest.atEnd)
    else if re == "$" then Pattern([], true)
    else
      var rest := Parse(re[1..]);
      Pattern([One(re[0])] + rest.items, rest.atEnd)
  }

  predicate Fits(c: char, d: char) { c == '.' || c == d }

  predicate AllFit(c: char, s: string) { forall i :: 0 <= i < |s| ==> Fits(c, s[i]) }

  /** The items describe all of s. */
  ghost predicate Describes(items: seq<Item>, s: string)
    decreases |items|
  {
    if items == [] then s == ""
    else
      match items[0]
      case One(c) => s != "" && Fits(c, s[0]) && Describes(items[1..], s[1..])
      case Star(c) => exists k :: 0 <= k <= |s| && AllFit(c, s[..k]) && Describes(items[1..], s[k..])
  }

  /** The pattern describes text[i..j], and '$' asks for the end of the text. */
  ghost predicate FoundAt(p: Pattern, text: string, i: nat, j: nat) {
    i <= j <= |text| && Describes(p.items, text[i..j]) && (p.atEnd ==> j == |text|)
  }

  /** The pattern describes a beginning of the text. */
  ghost predicate Starts(p: Pattern, text: string) { exists j: nat :: FoundAt(p, text, 0, j) }

  /** A leading '^' asks for the beginning of the text; without it any part of the text will do. */
  ghost predicate Means(re: string, text: string) {
    if re != "" && re[0] == '^' then Starts(Parse(re[1..]), text)
    else exists i: nat, j: nat :: FoundAt(Parse(re), text, i, j)
  }

  lemma StartsNothing(text: string, atEnd: bool)
    ensures Starts(Pattern([], atEnd), text) <==> !atEnd || text == ""
  {
    if !atEnd || text == "" {
      assert FoundAt(Pattern([], atEnd), text, 0, 0);
    }
  }

  lemma StartsOne(c: char, p: Pattern, text: string)
    ensures Starts(Pattern([One(c)] + p.items, p.atEnd), text) <==>
        text != "" && Fits(c, text[0]) && Starts(p, text[1..])
  {
    var q := Pattern([One(c)] + p.items, p.atEnd);
    assert q.items[1..] == p.items;
    if Starts(q, text) {
      var j: nat :| FoundAt(q, text, 0, j);
      assert text[0..j][1..] == text[1..][0..j - 1];
      assert FoundAt(p, text[1..], 0, j - 1);
    }
    if text != "" && Fits(c, text[0]) && Starts(p, text[1..]) {
      var j: nat :| FoundAt(p, text[1..], 0, j);
      assert text[0..j + 1][1..] == text[1..][0..j];
      assert FoundAt(q, text, 0, j + 1);
    }
  }

  /** c*p at the beginning of the text: k characters that fit, then p. */
  ghost predicate StarAt(c: char, p: Pattern, text: string, k: nat) {
    k <= |text| && AllFit(c, text[..k]) && Starts(p, text[k..])
  }

  lemma StartsStar(c: char, p: Pattern, text: string)
    ensures Starts(Pattern([Star(c)] + p.items, p.atEnd), text) <==> exists k: nat :: StarAt(c, p, text, k)
  {
    var q := Pattern([Star(c)] + p.items, p.atEnd);
    assert q.items[1..] == p.items;
    if Starts(q, text) {
      var j: nat :| FoundAt(q, text, 0, j);
      var k :| 0 <= k <= j && AllFit(c, text[0..j][..k]) && Describes(p.items, text[0..j][k..]);
      assert text[0..j][..k] == text[..k];
      assert text[0..j][k..] == text[k..][0..j - k];
      assert FoundAt(p, text[k..], 0, j - k);
      assert StarAt(c, p, text, k);
    }
    if k: nat :| StarAt(c, p, text, k) {
      var j: nat :| FoundAt(p, text[k..], 0, j);
      assert text[0..k + j][..k] == text[..k];
      assert text[0..k + j][k..] == text[k..][0..j];
      assert FoundAt(q, text, 0, k + j);
    }
  }

  /** matchhere. */
  method MatchHere(re: string, text: string) returns (b: bool)
    ensures b <==> Starts(Parse(re), text)
    decreases |re|
  {
    hide Starts, Fits;
    if re == "" {
      StartsNothing(text, false);
      return true;
    }
    if |re| > 1 && re[1] == '*' {
      assert Parse(re) == Pattern([Star(re[0])] + Parse(re[2..]).items, Parse(re[2..]).atEnd);
      StartsStar(re[0], Parse(re[2..]), text);
      b := MatchStar(re[0], re[2..], text);
      return;
    }
    if re == "$" {
      StartsNothing(text, true);
      return text == "";
    }
    StartsOne(re[0], Parse(re[1..]), text);
    if text != "" && Fits(re[0], text[0]) {
      b := MatchHere(re[1..], text[1..]);
      return;
    }
    return false;
  }

  /** matchstar. */
  method MatchStar(c: char, re: string, text: string) returns (b: bool)
    ensures b <==> exists k: nat :: StarAt(c, Parse(re), text, k)
    decreases |re| + 1
  {
    hide Starts, Parse, Fits;
    var i := 0;
    while true
      invariant i <= |text| && AllFit(c, text[..i])
      invariant forall k: nat :: k < i ==> !StarAt(c, Parse(re), text, k)
      decreases |text| - i
    {
      b := MatchHere(re, text[i..]);
      if b {
        assert StarAt(c, Parse(re), text, i);
        return;
      }
      if i == |text| || !Fits(c, text[i]) {
        StopsFitting(c, Parse(re), text, i);
        return;
      }
      assert text[..i + 1] == text[..i] + [text[i]];
      i := i + 1;
    }
  }

  lemma StarFits(c: char, p: Pattern, text: string, i: nat, k: nat)
    ensures StarAt(c, p, text, k) && i < k ==> i < |text| && Fits(c, text[i])
  {
    hide Starts, Fits;
    if StarAt(c, p, text, k) && i < k {
      assert text[..k][i] == text[i];
    }
  }

  lemma StopsFitting(c: char, p: Pattern, text: string, i: nat)
    requires i <= |text| && (i < |text| ==> !Fits(c, text[i]))
    ensures forall k: nat :: k > i ==> !StarAt(c, p, text, k)
  {
    hide Starts, Fits;
    forall k: nat | k > i
      ensures !StarAt(c, p, text, k)
    {
      StarFits(c, p, text, i, k);
    }
  }

  lemma FoundShift(p: Pattern, text: string, i: nat)
    requires i <= |text|
    ensures Starts(p, text[i..]) <==> exists j: nat :: FoundAt(p, text, i, j)
  {
    if Starts(p, text[i..]) {
      var j: nat :| FoundAt(p, text[i..], 0, j);
      assert text[i..][0..j] == text[i..i + j];
      assert FoundAt(p, text, i, i + j);
    }
    if j: nat :| FoundAt(p, text, i, j) {
      assert text[i..][0..j - i] == text[i..j];
      assert FoundAt(p, text[i..], 0, j - i);
    }
  }

  /** match: decides what the pattern means. */
  method Match(re: string, text: string) returns (b: bool)
    ensures b <==> Means(re, text)
  {
    hide Starts, Parse, FoundAt;
    if re != "" && re[0] == '^' {
      b := MatchHere(re[1..], text);
      return;
    }
    var i := 0;
    while true
      invariant i <= |text|
      invariant forall k: nat, j: nat :: k < i ==> !FoundAt(Parse(re), text, k, j)
      decreases |text| - i
    {
      FoundShift(Parse(re), text, i);
      b := MatchHere(re, text[i..]);
      if b {
        return;
      }
      if i == |text| {
        NotBehind(Parse(re), text);
        return;
      }
      i := i + 1;
    }
  }

  lemma NotBehind(p: Pattern, text: string)
    ensures forall k: nat, j: nat :: k > |text| ==> !FoundAt(p, text, k, j)
  {
  }

  // ----- what patterns mean, in so many words -----

  predicate Plain(w: string) { forall i :: 0 <= i < |w| ==> w[i] != '.' && w[i] != '*' }

  /** The items of plain text are its characters, each once. */
  lemma {:induction false} PlainDescribes(w: string, end: string, s: string)
    requires Plain(w) && (end == "$" || (end == "" && (w == "" || w[|w| - 1] != '$')))
    ensures Parse(w + end).atEnd <==> end == "$"
    ensures Describes(Parse(w + end).items, s) <==> s == w
  {
    var re := w + end;
    if w == "" {
      assert re == end;
    } else {
      assert re[0] == w[0] && re[1..] == w[1..] + end;
      assert |re| > 1 ==> re[1] == (w[1..] + end)[0];
      PlainDescribes(w[1..], end, if s == "" then s else s[1..]);
      assert Parse(re).items == [One(w[0])] + Parse(w[1..] + end).items;
      assert s != "" ==> s == [s[0]] + s[1..];
      assert w == [w[0]] + w[1..];
    }
  }

  lemma PlainFound(w: string, end: string, text: string, i: nat, j: nat)
    requires Plain(w) && (end == "$" || (end == "" && (w == "" || w[|w| - 1] != '$')))
    ensures FoundAt(Parse(w + end), text, i, j) <==> i <= j <= |text| && text[i..j] == w && (end == "$" ==> j == |text|)
  {
    hide Parse, Describes;
    PlainDescribes(w, end, if i <= j <= |text| then text[i..j] else "");
  }

  /**
   Plain text matches wherever it occurs; '^' in front ties it to the beginning, '$' behind to the end. Anywhere else
   these two are plain text as well.
   */
  lemma PlainMeans(w: string, text: string)
    requires Plain(w)
    ensures w == "" || (w[0] != '^' && w[|w| - 1] != '$') ==>
              (Means(w, text) <==> exists i: nat, j: nat :: i <= j <= |text| && text[i..j] == w)
    ensures w == "" || w[|w| - 1] != '$' ==> (Means("^" + w, text) <==> |w| <= |text| && text[..|w|] == w)
    ensures w == "" || w[0] != '^' ==> (Means(w + "$", text) <==> |w| <= |text| && text[|text| - |w|..] == w)
    ensures Means("^" + w + "$", text) <==> text == w
  {
    hide Parse, FoundAt;
    var n, m := |w|, |text|;
    assert w + "" == w && ("^" + w)[1..] == w && ("^" + w + "$")[1..] == w + "$";
    forall i: nat, j: nat
      ensures w == "" || w[n - 1] != '$' ==> (FoundAt(Parse(w), text, i, j) <==> i <= j <= m && text[i..j] == w)
      ensures FoundAt(Parse(w + "$"), text, i, j) <==> i <= j == m && text[i..j] == w
    {
      if w == "" || w[n - 1] != '$' {
        PlainFound(w, "", text, i, j);
      }
      PlainFound(w, "$", text, i, j);
    }
    if n <= m {
      assert text[0..n] == text[..n] && text[m - n..m] == text[m - n..];
      assert w == "" || w[n - 1] != '$' ==> (FoundAt(Parse(w), text, 0, n) <==> text[..n] == w);
      assert FoundAt(Parse(w + "$"), text, m - n, m) <==> text[m - n..] == w;
    }
    assert text[0..m] == text;
    assert FoundAt(Parse(w + "$"), text, 0, m) <==> text == w;
  }

  lemma EndsThere(text: string, k: nat)
    requires k <= |text|
    ensures Starts(Pattern([], true), text[k..]) <==> k == |text|
  {
    StartsNothing(text[k..], true);
  }

  /** A dot is any one character, and any other character but an operator is itself. */
  lemma OneMeans(c: char, text: string)
    ensures Means("^.$", text) <==> |text| == 1
    ensures c != '.' ==> (Means(['^', c, '$'], text) <==> text == [c])
  {
    hide Starts, Describes;
    var end := Pattern([], true);
    assert Parse("$") == end && "^.$"[1..] == ".$" && ".$"[1..] == "$";
    assert ['^', c, '$'][1..] == [c, '$'] && [c, '$'][1..] == "$";
    assert Parse(".$") == Pattern([One('.')] + end.items, true);
    assert Parse([c, '$']) == Pattern([One(c)] + end.items, true);
    StartsOne('.', end, text);
    StartsOne(c, end, text);
    if text != "" {
      EndsThere(text, 1);
    }
  }

  /** A star is any number, none included, of the character in front of it. */
  lemma StarMeans(c: char, text: string)
    ensures Means("^.*$", text)
    ensures c != '.' ==> (Means(['^', c, '*', '$'], text) <==> forall i :: 0 <= i < |text| ==> text[i] == c)
  {
    hide Starts, Describes;
    var end := Pattern([], true);
    assert Parse("$") == end && "^.*$"[1..] == ".*$" && ".*$"[2..] == "$";
    assert ['^', c, '*', '$'][1..] == [c, '*', '$'] && [c, '*', '$'][2..] == "$";
    assert Parse(".*$") == Pattern([Star('.')], true) && Parse([c, '*', '$']) == Pattern([Star(c)], true);
    StarToEnd('.', text);
    StarToEnd(c, text);
  }

  lemma StarToEnd(c: char, text: string)
    ensures Starts(Pattern([Star(c)], true), text) <==> AllFit(c, text)
  {
    hide Starts, Fits;
    var end := Pattern([], true);
    StartsStar(c, end, text);
    assert [Star(c)] + end.items == [Star(c)];
    assert text[..|text|] == text;
    forall k: nat | k <= |text|
      ensures StarAt(c, end, text, k) <==> k == |text| && AllFit(c, text)
    {
      EndsThere(text, k);
    }
    assert StarAt(c, end, text, |text|) <==> AllFit(c, text);
  }
}

/** grep's lines (user/grep.c). */
module Grep {
  import opened Patterns

  const SIZE := 1024

  predicate NoNewline(s: string) { forall k :: 0 <= k < |s| ==> s[k] != '\n' }

  /** Where the first newline stands; |s| if there is none. */
  function Newline(s: string): (i: nat)
    ensures i <= |s| && (i < |s| ==> s[i] == '\n') && NoNewline(s[..i])
  {
    if s == "" || s[0] == '\n' then 0
    else
      var i := 1 + Newline(s[1..]);
      assert s[..i] == [s[0]] + s[1..][..i - 1];
      i
  }

  /** The lines of s, ended by newlines, that the pattern matches. */
  ghost function Chosen(re: string, s: string): string
    decreases |s|
  {
    var i := Newline(s);
    if i == |s| then ""
    else (if Means(re, s[..i]) then s[..i + 1] else "") + Chosen(re, s[i + 1..])
  }

  /** The lines of s in front of the first that does not fit the buffer with its newline and a NUL. */
  function Fitting(s: string): string
    decreases |s|
  {
    var i := Newline(s);
    if i == |s| || i + 1 >= SIZE then "" else s[..i + 1] + Fitting(s[i + 1..])
  }

  /** Every line of s, ended by a newline, fits. */
  predicate AllFitting(s: string)
    decreases |s|
  {
    var i := Newline(s);
    i == |s| || (i + 1 < SIZE && AllFitting(s[i + 1..]))
  }

  /** The bytes in front of the first NUL. */
  function Text(s: string): (t: string)
    ensures t <= s && '\0' !in t && (|t| < |s| ==> s[|t|] == '\0')
  {
    if s == "" || s[0] == '\0' then "" else [s[0]] + Text(s[1..])
  }

  lemma {:induction false} TextIs(s: string, i: nat)
    requires i <= |s| && '\0' !in s[..i] && (i < |s| ==> s[i] == '\0')
    ensures Text(s) == s[..i]
  {
    if i > 0 {
      assert s[..i] == [s[0]] + s[1..][..i - 1];
      TextIs(s[1..], i - 1);
    }
  }

  lemma {:induction false} TextPast(s: string, q: nat)
    requires q <= |s| && forall k :: 0 <= k < q ==> s[k] != '\0'
    ensures |Text(s)| >= q
  {
    if q > 0 {
      TextPast(s[1..], q - 1);
    }
  }

  lemma NewlineIs(s: string, i: nat)
    requires i <= |s| && (i < |s| ==> s[i] == '\n') && NoNewline(s[..i])
    ensures Newline(s) == i
  {
    var n := Newline(s);
    assert forall k :: 0 <= k < i ==> s[..i][k] == s[k];
    assert forall k :: 0 <= k < n ==> s[..n][k] == s[k];
  }

  lemma ChosenStep(re: string, s: string, i: nat)
    requires i + 1 < SIZE && i < |s| && s[i] == '\n' && NoNewline(s[..i])
    ensures Chosen(re, Fitting(s)) == (if Means(re, s[..i]) then s[..i + 1] else "") + Chosen(re, Fitting(s[i + 1..]))
  {
    hide Means;
    NewlineIs(s, i);
    var f := Fitting(s);
    assert f == s[..i + 1] + Fitting(s[i + 1..]);
    assert f[..i] == s[..i] && f[..i + 1] == s[..i + 1] && f[i + 1..] == Fitting(s[i + 1..]);
    NewlineIs(f, i);
  }

  lemma ChosenEnd(re: string, s: string, m: nat)
    requires m <= |s| && NoNewline(s[..m]) && (m == |s| || m + 1 == SIZE)
    ensures Chosen(re, Fitting(s)) == ""
  {
    hide Means;
    var i := Newline(s);
    assert forall k :: 0 <= k < m ==> s[..m][k] == s[k];
    assert i >= m;
    assert Fitting(s) == "";
  }

  lemma FittingAt(s: string)
    ensures var i := Newline(s);
            Fitting(s) == if i == |s| || i + 1 >= SIZE then "" else s[..i + 1] + Fitting(s[i + 1..])
  {
  }

  lemma ChosenAt(re: string, s: string)
    ensures var i := Newline(s);
            Chosen(re, s) == if i == |s| then ""
                else (if Means(re, s[..i]) then s[..i + 1] else "") + Chosen(re, s[i + 1..])
  {
    hide Means, Newline, NoNewline;
  }

  /** What is written, and what is not because it stands behind the first line that does not fit. */
  lemma {:induction false} LeftOut(re: string, s: string)
    ensures Fitting(s) <= s && Chosen(re, s) == Chosen(re, Fitting(s)) + Chosen(re, s[|Fitting(s)|..])
    decreases |s|
  {
    hide Means, Chosen, Fitting, Newline;
    var i := Newline(s);
    FittingAt(s);
    ChosenAt(re, s);
    ChosenAt(re, "");
    if i == |s| || i + 1 >= SIZE {
      assert s[0..] == s;
    } else {
      var f := Fitting(s[i + 1..]);
      LeftOut(re, s[i + 1..]);
      ChosenStep(re, s, i);
      assert s == s[..i + 1] + s[i + 1..];
      assert s[|Fitting(s)|..] == s[i + 1..][|f|..];
    }
  }

  /** Nothing is left out exactly if no line behind the first that does not fit matches, that one included. */
  lemma AllWritten(re: string, s: string)
    ensures Fitting(s) <= s
    ensures Chosen(re, Fitting(s)) == Chosen(re, s) <==> Chosen(re, s[|Fitting(s)|..]) == ""
  {
    hide Chosen, Fitting;
    LeftOut(re, s);
    if Chosen(re, s[|Fitting(s)|..]) == "" {
      assert Chosen(re, s) == Chosen(re, Fitting(s)) + "";
    }
  }

  /** A line fits with at most 1022 characters in front of its newline. */
  lemma LineFits(line: string)
    requires NoNewline(line)
    ensures Fitting(line + "\n") == line + "\n" <==> |line| <= 1022
  {
    var s := line + "\n";
    assert s[..|line|] == line && s[..|line| + 1] == s && s[|line| + 1..] == "";
    NewlineIs(s, |line|);
    assert Fitting("") == "";
  }

  /** A line of 1023 characters and its newline: the pattern matches it, and nothing is written. */
  lemma LongLine(line: string, re: string)
    requires |line| == 1023 && NoNewline(line) && Means(re, line)
    ensures Chosen(re, Fitting(line + "\n")) == "" && Chosen(re, line + "\n") == line + "\n"
  {
    hide Means;
    var s := line + "\n";
    assert s[..1023] == line && s[..1024] == s && s[1024..] == "";
    NewlineIs(s, 1023);
    assert Chosen(re, "") == "";
  }

  /** If every line fits, nothing is left out. */
  lemma {:induction false} NothingLeftOut(re: string, s: string)
    requires AllFitting(s)
    ensures Chosen(re, Fitting(s)) == Chosen(re, s)
    decreases |s|
  {
    hide Means;
    var i := Newline(s);
    if i == |s| {
      assert Fitting(s) == "";
    } else {
      NothingLeftOut(re, s[i + 1..]);
      ChosenStep(re, s, i);
    }
  }

  /** strchr(p, newline): the place of the newline, if there is one in front of the first NUL; buf[m] is one. */
  method StrChr(buf: array<char>, p: nat, m: nat) returns (q: nat, found: bool)
    requires p <= m < buf.Length && buf[m] == '\0'
    ensures p <= q <= m && (if found then q < m && buf[q] == '\n' else buf[q] == '\0')
    ensures forall k :: p <= k < q ==> buf[k] != '\n' && buf[k] != '\0'
  {
    q := p;
    while buf[q] != '\0' && buf[q] != '\n'
      invariant p <= q <= m && forall k :: p <= k < q ==> buf[k] != '\n' && buf[k] != '\0'
      decreases m - q
    {
      q := q + 1;
    }
    found := buf[q] == '\n';
  }

  /** One turn of grep's inner loop: the line from p to the newline at q. */
  method TakeLine(re: string, buf: array<char>, p: nat, q: nat) returns (line: string)
    requires p <= q < buf.Length && buf[q] == '\n'
    modifies buf
    ensures forall k :: q < k < buf.Length ==> buf[k] == old(buf[k])
    ensures line == if Means(re, old(buf[p..q])) then old(buf[p..q + 1]) else ""
  {
    hide Means;
    buf[q] := '\0';
    var yes := Match(re, buf[p..q]);
    line := "";
    if yes {
      buf[q] := '\n';
      line := buf[p..q + 1];
    }
  }

  lemma LineStep(re: string, rest: string, p: nat, q: nat)
    requires p <= q < |rest| && q + 1 < SIZE && rest[q] == '\n'
    requires forall k :: p <= k < q ==> rest[k] != '\n' && rest[k] != '\0'
    ensures Chosen(re, Fitting(Text(rest[p..])))
        == (if Means(re, rest[p..q]) then rest[p..q + 1] else "") + Chosen(re, Fitting(Text(rest[q + 1..])))
  {
    hide Means, Chosen, Fitting;
    TextStep(rest, p, q);
    var t := Text(rest[p..]);
    ChosenStep(re, t, q - p);
    assert t[..q - p] == rest[p..q];
  }

  lemma TextStep(rest: string, p: nat, q: nat)
    requires p <= q < |rest| && forall k :: p <= k <= q ==> rest[k] != '\0'
    ensures var t := Text(rest[p..]);
            |t| > q - p && t[..q - p + 1] == rest[p..q + 1] && t[q - p + 1..] == Text(rest[q + 1..])
  {
    var t, u := Text(rest[p..]), Text(rest[q + 1..]);
    var n := q - p + 1 + |u|;
    assert rest[p..][..n] == rest[p..q + 1] + u;
    TextIs(rest[p..], n);
  }

  /** The line goes from what is still to be dealt with to what has been written. */
  method TakeOne(re: string, buf: array<char>, p: nat, q: nat, m: nat, out: string, ghost rest: string)
      returns (out': string)
    requires buf.Length == SIZE && p <= q < m < SIZE && m <= |rest| && forall k :: p <= k < m ==> buf[k] == rest[k]
    requires buf[q] == '\n' && forall k :: p <= k < q ==> buf[k] != '\n' && buf[k] != '\0'
    modifies buf
    ensures forall k :: q < k < SIZE ==> buf[k] == old(buf[k])
    ensures out + Chosen(re, Fitting(Text(rest[p..]))) == out' + Chosen(re, Fitting(Text(rest[q + 1..])))
  {
    hide Means, Chosen, Fitting, NoNewline, Text, Newline;
    assert buf[p..q] == rest[p..q] && buf[p..q + 1] == rest[p..q + 1];
    LineStep(re, rest, p, q);
    var line := TakeLine(re, buf, p, q);
    out' := out + line;
  }

  /**
   grep's inner loop: the lines that end in the first m bytes of the buffer, in front of the first NUL, are dealt with;
   rest is the input from the buffer's first byte on.
   */
  method TakeLines(re: string, buf: array<char>, m: nat, out: string, ghost rest: string) returns (p: nat, out': string)
    requires buf.Length == SIZE && m < SIZE && m <= |rest| && forall k :: 0 <= k < m ==> buf[k] == rest[k]
    modifies buf
    ensures p <= m && forall k :: p <= k < m ==> buf[k] == rest[k]
    ensures exists q: nat :: Stuck(rest, p, q, m)
    ensures out + Chosen(re, Fitting(Text(rest))) == out' + Chosen(re, Fitting(Text(rest[p..])))
  {
    hide Means, Chosen, Fitting, NoNewline, Text, Newline, Stuck;
    p, out' := 0, out;
    buf[m] := '\0';
    assert rest[0..] == rest;
    var q, found := StrChr(buf, p, m);
    while found
      invariant p <= q <= m && buf[m] == '\0' && (forall k :: p <= k < m ==> buf[k] == rest[k])
      invariant if found then q < m && buf[q] == '\n' else buf[q] == '\0'
      invariant forall k :: p <= k < q ==> buf[k] != '\n' && buf[k] != '\0'
      invariant out + Chosen(re, Fitting(Text(rest))) == out' + Chosen(re, Fitting(Text(rest[p..])))
      decreases m - p, found
    {
      out' := TakeOne(re, buf, p, q, m, out', rest);
      p := q + 1;
      q, found := StrChr(buf, p, m);
    }
    NoMore(buf[..], rest, p, q, m);
  }

  lemma NoMore(buf: string, rest: string, p: nat, q: nat, m: nat)
    requires p <= q <= m <= |rest| && m < |buf| && (forall k :: p <= k < m ==> buf[k] == rest[k]) && buf[q] == '\0'
    requires forall k :: p <= k < q ==> buf[k] != '\n' && buf[k] != '\0'
    ensures Stuck(rest, p, q, m)
  {
  }

  /** From p on there is no newline in front of q, where the buffer ends or a NUL stands. */
  predicate Stuck(rest: string, p: nat, q: nat, m: nat) {
    p <= q <= m <= |rest| && (q == m || rest[q] == '\0')
        && forall k :: p <= k < q ==> rest[k] != '\n' && rest[k] != '\0'
  }

  /** read, into the buffer behind m bytes. */
  method Fill(buf: array<char>, m: nat, bytes: string)
    requires m + |bytes| <= buf.Length
    modifies buf
    ensures forall k :: 0 <= k < m ==> buf[k] == old(buf[k])
    ensures forall k :: m <= k < m + |bytes| ==> buf[k] == bytes[k - m]
  {
    forall i | 0 <= i < |bytes| {
      buf[m + i] := bytes[i];
    }
  }

  /** memmove of the bytes from p to m to the front. */
  method Shift(buf: array<char>, p: nat, m: nat)
    requires p <= m <= buf.Length
    modifies buf
    ensures forall k :: 0 <= k < m - p ==> buf[k] == old(buf[p + k])
  {
    forall i | 0 <= i < m - p {
      buf[i] := buf[p + i];
    }
  }

  /** The end: no line is complete in the buffer, and no more will be. */
  lemma TextEnd(re: string, s: string, q: nat, m: nat)
    requires Stuck(s, 0, q, m) && (m == |s| || m + 1 == SIZE)
    ensures Chosen(re, Fitting(Text(s))) == ""
  {
    hide Chosen, Fitting;
    var t := Text(s);
    TextPast(s, q);
    if q < m {
      TextIs(s, q);
      ChosenEnd(re, t, q);
    } else {
      assert NoNewline(t[..m]);
      ChosenEnd(re, t, m);
    }
  }

  /**
   grep: however read cuts the input up, what is written are the matching lines in front of the first NUL and of the
   first line that does not fit the buffer, where the loop ends as if the input had.
   */
  method Grep(re: string, input: string) returns (out: string)
    ensures out == Chosen(re, Fitting(Text(input)))
    ensures '\0' !in input && AllFitting(input) ==> out == Chosen(re, input)
  {
    hide Means, Chosen, Fitting, AllFitting, Text, Stuck;
    var buf := new char[SIZE];
    var m, pos := 0, 0;
    out := "";
    assert input[0..] == input;
    NothingYet(input);
    ghost var q: nat := 0;
    while true
      invariant 0 <= m < SIZE && m <= pos <= |input|
      invariant forall k :: 0 <= k < m ==> buf[k] == input[pos - m + k]
      invariant Stuck(input[pos - m..], 0, q, m)
      invariant out + Chosen(re, Fitting(Text(input[pos - m..]))) == Chosen(re, Fitting(Text(input)))
      decreases |input| - pos
    {
      ghost var rest := input[pos - m..];
      var n := 0;
      if pos < |input| && m + 1 < SIZE {
        n :| 0 < n <= |input| - pos && n <= SIZE - m - 1;
      }
      if n == 0 {
        TextEnd(re, rest, q, m);
        break;
      }
      Fill(buf, m, input[pos..pos + n]);
      m, pos := m + n, pos + n;
      var p;
      p, out := TakeLines(re, buf, m, out, rest);
      assert rest[p..] == input[pos - m + p..];
      q := StillStuck(rest, p, m);
      Shift(buf, p, m);
      m := m - p;
    }
    if '\0' !in input {
      WholeText(input);
      if AllFitting(input) {
        NothingLeftOut(re, input);
      }
    }
  }

  lemma NothingYet(s: string)
    ensures Stuck(s, 0, 0, 0)
  {
  }

  lemma StillStuck(rest: string, p: nat, m: nat) returns (q: nat)
    requires exists r: nat :: Stuck(rest, p, r, m)
    ensures p <= m <= |rest| && Stuck(rest[p..], 0, q, m - p)
  {
    var r: nat :| Stuck(rest, p, r, m);
    q := r - p;
  }

  lemma WholeText(s: string)
    requires '\0' !in s
    ensures Text(s) == s
  {
    assert s[..|s|] == s;
    TextIs(s, |s|);
  }
}
