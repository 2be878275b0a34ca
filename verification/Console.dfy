/** The console: a line editor over a ring of 128 bytes (kernel/console.c). */
module LineEditor {
  import opened ByteSeq

  const NEWLINE: byte := 10
  const RETURN: byte := 13
  const EOF: byte := 4        // control-D
  const KILL: byte := 21      // control-U
  const BACK: byte := 8       // control-H
  const DELETE: byte := 127
  const LIST: byte := 16      // control-P

  /** What has been typed and not read: complete lines, and the line being edited. */
  datatype Line = Line(ready: seq<byte>, edit: seq<byte>)

  predicate Commits(c: byte) { c == NEWLINE || c == EOF }

  predicate Plain(c: byte) {
    c != 0 && c != RETURN && !Commits(c) && c != KILL && c != BACK && c != DELETE && c != LIST
  }

  /** One keystroke. */
  function Press(l: Line, c: byte): Line {
    if c == LIST then l
    else if c == KILL then l.(edit := [])
    else if c == BACK || c == DELETE then (if l.edit == [] then l else l.(edit := l.edit[..|l.edit| - 1]))
    else if c == 0 || |l.ready| + |l.edit| >= 128 then l
    else
      var d := if c == RETURN then NEWLINE else c;
      if Commits(d) || |l.ready| + |l.edit| == 127 then Line(l.ready + l.edit + [d], [])
      else l.(edit := l.edit + [d])
  }

  /**
   Every key, by its code: ^P (16) does nothing here, ^U (21) takes the line being edited, ^H (8) and DEL (127) its last
   character. Carriage return (13) and newline (10) both commit the line with a newline, ^D (4) with itself. NUL is
   dropped. Every other key is typed, and commits the line if it takes the last of the 128 places.
   */
  lemma KeyCodes(l: Line, c: byte)
    ensures Press(l, 16) == l && Press(l, 0) == l && Press(l, 21) == Line(l.ready, [])
    ensures Press(l, 8) == Press(l, 127) == if l.edit == [] then l else Line(l.ready, l.edit[..|l.edit| - 1])
    ensures |l.ready| + |l.edit| < 128 ==>
              && Press(l, 13) == Press(l, 10) == Line(l.ready + l.edit + [10], [])
              && Press(l, 4) == Line(l.ready + l.edit + [4], [])
    ensures c !in [0, 4, 8, 10, 13, 16, 21, 127] && |l.ready| + |l.edit| < 127 ==>
              Press(l, c) == Line(l.ready, l.edit + [c])
    ensures c !in [0, 4, 8, 10, 13, 16, 21, 127] && |l.ready| + |l.edit| == 127 ==>
              Press(l, c) == Line(l.ready + l.edit + [c], [])
    ensures |l.ready| + |l.edit| >= 128 && c !in [8, 21, 127] ==> Press(l, c) == l
  {
  }

  function PressAll(l: Line, keys: seq<byte>): Line
    decreases |keys|
  {
    if keys == [] then l else PressAll(Press(l, keys[0]), keys[1..])
  }

  /** The line being edited holds no newline and no end of file. */
  predicate Editable(l: Line) {
    |l.ready| + |l.edit| <= 128 && forall i :: 0 <= i < |l.edit| ==> !Commits(l.edit[i])
  }

  /** No key takes anything back that has been committed, or lets a newline stay in the line being edited. */
  lemma {:induction false} CommittedStays(l: Line, keys: seq<byte>)
    requires Editable(l)
    ensures l.ready <= PressAll(l, keys).ready && Editable(PressAll(l, keys))
    decreases |keys|
  {
    if keys != [] {
      assert l.ready <= Press(l, keys[0]).ready;
      CommittedStays(Press(l, keys[0]), keys[1..]);
    }
  }

  lemma {:induction false} PressSplit(l: Line, a: seq<byte>, b: seq<byte>)
    ensures PressAll(l, a + b) == PressAll(PressAll(l, a), b)
    decreases |a|
  {
    hide Press;
    if a == [] {
      assert a + b == b;
    } else {
      assert (a + b)[0] == a[0] && (a + b)[1..] == a[1..] + b;
      PressSplit(Press(l, a[0]), a[1..], b);
    }
  }

  /** Plain characters go to the end of the line being edited, as long as they leave room. */
  lemma {:induction false} Typing(l: Line, word: seq<byte>)
    requires (forall i :: 0 <= i < |word| ==> Plain(word[i])) && |l.ready| + |l.edit| + |word| < 128
    ensures PressAll(l, word) == l.(edit := l.edit + word)
    decreases |word|
  {
    if word == [] {
      assert l.edit + word == l.edit;
    } else {
      assert Press(l, word[0]) == l.(edit := l.edit + [word[0]]);
      Typing(Press(l, word[0]), word[1..]);
      assert l.edit + [word[0]] + word[1..] == l.edit + word;
    }
  }

  function Backs(n: nat): seq<byte> { seq(n, i => BACK) }

  lemma {:induction false} BacksErase(l: Line, n: nat)
    requires n <= |l.edit|
    ensures PressAll(l, Backs(n)) == l.(edit := l.edit[..|l.edit| - n])
    decreases n
  {
    if n == 0 {
      assert Backs(0) == [];
      assert l.edit[..|l.edit|] == l.edit;
    } else {
      assert Backs(n)[1..] == Backs(n - 1);
      BacksErase(Press(l, BACK), n - 1);
    }
  }

  /** Typing a word and rubbing it out leaves nothing behind. */
  lemma RubbedOut(l: Line, word: seq<byte>)
    requires (forall i :: 0 <= i < |word| ==> Plain(word[i])) && |l.ready| + |l.edit| + |word| < 128
    ensures PressAll(l, word + Backs(|word|)) == l
  {
    Typing(l, word);
    PressSplit(l, word, Backs(|word|));
    BacksErase(PressAll(l, word), |word|);
    assert (l.edit + word)[..|l.edit|] == l.edit;
  }

  /** A killed line leaves nothing behind, and the line typed after it arrives whole, whichever key ends it. */
  lemma KilledAndRetyped(l: Line, wrong: seq<byte>, line: seq<byte>, end: byte)
    requires (forall i :: 0 <= i < |wrong| ==> Plain(wrong[i])) && (forall i :: 0 <= i < |line| ==> Plain(line[i]))
    requires |l.ready| + |l.edit| + |wrong| < 128 && |l.ready| + |line| < 128 && (end == RETURN || end == NEWLINE)
    ensures PressAll(l, wrong + [KILL] + line + [end]) == Line(l.ready + line + [NEWLINE], [])
  {
    Typing(l, wrong);
    PressSplit(l, wrong, [KILL]);
    var k := PressAll(l, wrong + [KILL]);
    assert [KILL][1..] == [];
    assert k == l.(edit := []);
    Typing(k, line);
    PressSplit(l, wrong + [KILL], line);
    var t := PressAll(l, wrong + [KILL] + line);
    assert t == Line(l.ready, [] + line) && [] + line == line;
    PressSplit(l, wrong + [KILL] + line, [end]);
    assert [end][1..] == [];
  }

  // ----- the ring -----

  /** The indices are 32 bits wide and wrap. */
  function Wrap(n: nat): (r: nat)
    ensures r < 0x1_0000_0000
  {
    n % 0x1_0000_0000
  }

  function Dec(n: nat): nat { (n + 0xffff_ffff) % 0x1_0000_0000 }

  /** a - b, as unsigned numbers. */
  function Minus(a: nat, b: nat): int { (a - b) % 0x1_0000_0000 }

  /** A place in the buffer. */
  function At(n: nat): (r: nat)
    ensures r < 128
  {
    n % 128
  }

  lemma WrapAt(n: nat)
    ensures At(Wrap(n)) == At(n)
  {
  }

  lemma WrapInc(n: nat)
    ensures Wrap(Wrap(n) + 1) == Wrap(n + 1)
  {
  }

  lemma WrapDec(n: nat)
    requires n > 0
    ensures Dec(Wrap(n)) == Wrap(n - 1)
  {
  }

  /** Wrapping never makes the indices look closer or farther apart than they are. */
  lemma WrapMinus(r: nat, k: nat, m: nat)
    requires r < 0x1_0000_0000 && k <= m <= 128
    ensures Minus(Wrap(r + m), Wrap(r + k)) == m - k && (Wrap(r + m) == Wrap(r + k) <==> m == k) && Wrap(r) == r
  {
  }

  lemma AtDiffer(n: nat, k: nat, m: nat)
    requires k < m < k + 128
    ensures At(n + k) != At(n + m)
  {
  }

  lemma AtMoved(n: nat, k: nat)
    requires n < 0x1_0000_0000
    ensures At(Wrap(n + 1) + k) == At(n + (k + 1))
  {
  }

  /** s lies in the buffer from index n on. */
  ghost predicate Window(buf: seq<byte>, n: nat, s: seq<byte>) {
    |buf| == 128 && |s| <= 128 && forall k :: 0 <= k < |s| ==> buf[At(n + k)] == s[k]
  }

  lemma WindowPush(buf: seq<byte>, n: nat, s: seq<byte>, b: byte)
    requires Window(buf, n, s) && |s| < 128
    ensures Window(buf[At(n + |s|) := b], n, s + [b])
  {
    hide At;
    var t := buf[At(n + |s|) := b];
    forall k | 0 <= k < |s| + 1
      ensures t[At(n + k)] == (s + [b])[k]
    {
      if k < |s| {
        AtDiffer(n, k, |s|);
      }
    }
  }

  lemma WindowPop(buf: seq<byte>, n: nat, s: seq<byte>)
    requires Window(buf, n, s) && s != [] && n < 0x1_0000_0000
    ensures buf[At(n)] == s[0] && Window(buf, Wrap(n + 1), s[1..])
  {
    hide At, Wrap;
    assert buf[At(n + 0)] == s[0];
    forall k | 0 <= k < |s| - 1
      ensures buf[At(Wrap(n + 1) + k)] == s[1..][k]
    {
      AtMoved(n, k);
      assert buf[At(n + (k + 1))] == s[k + 1];
    }
  }

  lemma WindowCut(buf: seq<byte>, n: nat, s: seq<byte>, t: seq<byte>)
    requires Window(buf, n, s + t)
    ensures Window(buf, n, s) && forall k :: 0 <= k < |t| ==> buf[At(n + (|s| + k))] == t[k]
  {
    hide At;
    assert forall k :: 0 <= k < |s| ==> (s + t)[k] == s[k];
    forall k | 0 <= k < |t|
      ensures buf[At(n + (|s| + k))] == t[k]
    {
      assert (s + t)[|s| + k] == t[k];
    }
  }
}

/** Keystrokes and reads on the console. */
module Consoles {
  import opened ByteSeq
  import opened LineEditor

  /** A byte that has been read, and the read that took it. */
  datatype Taken = Taken(b: byte, who: nat)

  /** A key is pressed, or a read takes the oldest committed byte, if there is one. */
  datatype Event = Key(c: byte) | Took(who: nat)

  /** line: what has not been read; gone: what has been, in order; typed: all that was ever committed. */
  datatype State = State(line: Line, gone: seq<Taken>, typed: seq<byte>)

  /** What a keystroke commits. */
  function Committed(l: Line, c: byte): seq<byte> {
    var m := Press(l, c);
    if |m.ready| <= |l.ready| then [] else m.ready[|l.ready|..]
  }

  function Happen(s: State, ev: Event): State {
    match ev
    case Key(c) => State(Press(s.line, c), s.gone, s.typed + Committed(s.line, c))
    case Took(who) =>
      if s.line.ready == [] then s
      else State(s.line.(ready := s.line.ready[1..]), s.gone + [Taken(s.line.ready[0], who)], s.typed)
  }

  /** The state after all that happened since the console came up. */
  function Replay(log: seq<Event>): State {
    if log == [] then State(Line([], []), [], [])
    else Happen(Replay(log[..|log| - 1]), log[|log| - 1])
  }

  function Bytes(gone: seq<Taken>): seq<byte> {
    seq(|gone|, i requires 0 <= i < |gone| => gone[i].b)
  }

  /** The bytes that read me took, in order. */
  function Mine(gone: seq<Taken>, me: nat): seq<byte> {
    if gone == [] then []
    else if gone[|gone| - 1].who == me then Mine(gone[..|gone| - 1], me) + [gone[|gone| - 1].b]
    else Mine(gone[..|gone| - 1], me)
  }

  /** What happened besides the turns of read me. */
  function Without(log: seq<Event>, me: nat): seq<Event> {
    if log == [] then []
    else if log[|log| - 1] == Took(me) then Without(log[..|log| - 1], me)
    else Without(log[..|log| - 1], me) + [log[|log| - 1]]
  }

  function InTurn(naps: seq<seq<Event>>): seq<Event> {
    if naps == [] then [] else InTurn(naps[..|naps| - 1]) + naps[|naps| - 1]
  }

  function Tagged(bytes: seq<byte>, me: nat): seq<Taken> {
    seq(|bytes|, i requires 0 <= i < |bytes| => Taken(bytes[i], me))
  }

  lemma MineMore(gone: seq<Taken>, t: Taken, me: nat)
    ensures Mine(gone + [t], me) == if t.who == me then Mine(gone, me) + [t.b] else Mine(gone, me)
  {
    assert (gone + [t])[..|gone|] == gone;
  }

  lemma WithoutMore(log: seq<Event>, ev: Event, me: nat)
    ensures Without(log + [ev], me) == if ev == Took(me) then Without(log, me) else Without(log, me) + [ev]
  {
    assert (log + [ev])[..|log|] == log;
  }

  lemma ReplayMore(log: seq<Event>, ev: Event)
    ensures Replay(log + [ev]) == Happen(Replay(log), ev)
  {
    assert (log + [ev])[..|log|] == log;
  }

  lemma InTurnMore(naps: seq<seq<Event>>, k: nat)
    requires k < |naps|
    ensures InTurn(naps[..k + 1]) == InTurn(naps[..k]) + naps[k]
  {
    assert naps[..k + 1][..k] == naps[..k];
  }

  lemma PressCommits(l: Line, c: byte)
    requires Editable(l)
    ensures Press(l, c).ready == l.ready + Committed(l, c) && Editable(Press(l, c))
    ensures Committed(l, c) == [] || exists d :: Committed(l, c) == l.edit + [d]
  {
    if |Press(l, c).ready| > |l.ready| {
      var d := if c == RETURN then NEWLINE else c;
      assert l.ready + l.edit + [d] == l.ready + (l.edit + [d]);
      assert Committed(l, c) == l.edit + [d];
    }
  }

  /**
   In every run: all reads together have taken, in order and each byte once, exactly what was committed, up to what is
   still to be read.
   */
  lemma {:induction false} TakenInOrder(log: seq<Event>)
    ensures var s := Replay(log); s.typed == Bytes(s.gone) + s.line.ready && Editable(s.line)
    decreases |log|
  {
    if log == [] {
    } else {
      var was := Replay(log[..|log| - 1]);
      TakenInOrder(log[..|log| - 1]);
      match log[|log| - 1] {
        case Key(c) =>
          PressCommits(was.line, c);
          assert Bytes(was.gone) + was.line.ready + Committed(was.line, c)
              == Bytes(was.gone) + (was.line.ready + Committed(was.line, c));
        case Took(who) =>
          if was.line.ready != [] {
            var t := Taken(was.line.ready[0], who);
            assert Bytes(was.gone + [t]) == Bytes(was.gone) + [t.b];
            assert was.line.ready == [t.b] + was.line.ready[1..];
          }
      }
    }
  }

  // ----- readers do not disturb the typing -----

  /** The keys that were pressed, in order. */
  function KeysOf(log: seq<Event>): seq<byte> {
    if log == [] then []
    else KeysOf(log[..|log| - 1]) + match log[|log| - 1] { case Key(c) => [c] case Took(_) => [] }
  }

  /** One keystroke, in a buffer that never fills. */
  function Edited(l: Line, c: byte): Line {
    var d := if c == RETURN then NEWLINE else c;
    if c == LIST || c == 0 then l
    else if c == KILL then l.(edit := [])
    else if c == BACK || c == DELETE then (if l.edit == [] then l else l.(edit := l.edit[..|l.edit| - 1]))
    else if Commits(d) then Line(l.ready + l.edit + [d], [])
    else l.(edit := l.edit + [d])
  }

  function Endless(keys: seq<byte>): Line {
    if keys == [] then Line([], []) else Edited(Endless(keys[..|keys| - 1]), keys[|keys| - 1])
  }

  lemma PressedAlike(l: Line, typed: seq<byte>, c: byte)
    requires Editable(l) && |l.ready| + |l.edit| < 127
    ensures Edited(Line(typed, l.edit), c) == Line(typed + Committed(l, c), Press(l, c).edit)
  {
    var d := if c == RETURN then NEWLINE else c;
    assert typed + [] == typed;
    if |Press(l, c).ready| > |l.ready| {
      assert l.ready + l.edit + [d] == l.ready + (l.edit + [d]);
      assert typed + l.edit + [d] == typed + (l.edit + [d]);
    }
  }

  /** Two places or more are free whenever a key is pressed. */
  predicate Roomy(log: seq<Event>) {
    forall i :: 0 <= i < |log| && log[i].Key? ==>
                  var l := Replay(log[..i]).line; |l.ready| + |l.edit| < 127
  }

  lemma NothingTyped()
    ensures Endless([]) == Line([], [])
  {
  }

  lemma EndlessMore(keys: seq<byte>, c: byte)
    ensures Endless(keys + [c]) == Edited(Endless(keys), c)
  {
    hide Edited;
    assert (keys + [c])[..|keys|] == keys;
  }

  lemma RoomyBefore(log: seq<Event>)
    requires Roomy(log) && log != []
    ensures var n := |log| - 1;
            Roomy(log[..n])
            && (log[n].Key? ==> |Replay(log[..n]).line.ready| + |Replay(log[..n]).line.edit| < 127)
  {
    hide Replay;
    var init := log[..|log| - 1];
    assert forall i :: 0 <= i < |init| ==> init[i] == log[i] && init[..i] == log[..i];
  }

  /** As long as there is room, when and how much is read makes no difference to what gets committed. */
  lemma {:induction false} TypingUndisturbed(log: seq<Event>)
    requires Roomy(log)
    ensures Endless(KeysOf(log)) == Line(Replay(log).typed, Replay(log).line.edit)
    decreases |log|
  {
    hide Edited, Press, Committed, Editable, Roomy, Endless;
    if log == [] {
      NothingTyped();
    } else {
      var n := |log| - 1;
      var init := log[..n];
      RoomyBefore(log);
      TypingUndisturbed(init);
      TakenInOrder(init);
      if log[n].Key? {
        EndlessMore(KeysOf(init), log[n].c);
        PressedAlike(Replay(init).line, Replay(init).typed, log[n].c);
      } else {
        assert KeysOf(init) + [] == KeysOf(init);
      }
    }
  }

  predicate NoReads(events: seq<Event>) { forall i :: 0 <= i < |events| ==> events[i].Key? }

  /** What was taken stays taken, what was committed stays committed; who takes nothing has nothing more. */
  lemma {:induction false} LaterOn(log: seq<Event>, more: seq<Event>, me: nat)
    ensures var s, t := Replay(log), Replay(log + more);
        && s.gone <= t.gone && s.typed <= t.typed
        && (Took(me) !in more ==> Mine(t.gone, me) == Mine(s.gone, me))
        && (NoReads(more) ==> t.gone == s.gone)
    decreases |more|
  {
    hide Mine, Press, Committed;
    if more == [] {
      assert log + more == log;
    } else {
      var n, ev := |more| - 1, more[|more| - 1];
      LaterOn(log, more[..n], me);
      assert log + more == log + more[..n] + [ev];
      ReplayMore(log + more[..n], ev);
      var t := Replay(log + more[..n]);
      if ev.Took? && t.line.ready != [] {
        MineMore(t.gone, Taken(t.line.ready[0], ev.who), me);
      }
    }
  }

  lemma {:induction false} WithoutAll(log: seq<Event>, more: seq<Event>, me: nat)
    requires Took(me) !in more
    ensures Without(log + more, me) == Without(log, me) + more
    decreases |more|
  {
    if more == [] {
      assert log + more == log && Without(log, me) + more == Without(log, me);
    } else {
      var n := |more| - 1;
      WithoutAll(log, more[..n], me);
      assert log + more == log + more[..n] + [more[n]];
      WithoutMore(log + more[..n], more[n], me);
      assert more == more[..n] + [more[n]];
    }
  }

  class Console {
    const buf: array<byte>
    var r: nat
    var w: nat
    var e: nat
    ghost var line: Line
    ghost var gone: seq<Taken>
    ghost var typed: seq<byte>
    ghost var log: seq<Event>

    /** r, w and e stand 128 bytes apart at most; the ring holds what is to be read and then what is being edited. */
    ghost predicate Ring()
      reads this`r, this`w, this`e, this`line, buf
    {
      && buf.Length == 128 && r < 0x1_0000_0000 && w == Wrap(r + |line.ready|)
      && e == Wrap(r + (|line.ready| + |line.edit|))
      && Editable(line) && Window(buf[..], r, line.ready + line.edit)
    }

    /** And the ghosts say what has come of all that happened. */
    ghost predicate Valid()
      reads this, buf
    {
      Ring() && Replay(log) == State(line, gone, typed)
    }

    constructor ()
      ensures Valid() && fresh(buf) && log == []
    {
      buf := new byte[128](i => 0);
      r, w, e := 0, 0, 0;
      line, gone, typed, log := Line([], []), [], [], [];
    }

    /** One turn of the kill loop, or backspace: the last character of the line being edited goes. */
    method Erase()
      requires Ring() && line.edit != []
      modifies this`e, this`line
      ensures Ring() && line == old(line).(edit := old(line).edit[..|old(line).edit| - 1])
    {
      hide Wrap, At, Dec, Minus;
      var n := |line.edit|;
      WrapDec(r + (|line.ready| + n));
      e := Dec(e);
      ghost var cut := line.edit[..n - 1];
      assert line.ready + line.edit == (line.ready + cut) + [line.edit[n - 1]];
      WindowCut(buf[..], r, line.ready + cut, [line.edit[n - 1]]);
      line := line.(edit := cut);
    }

    lemma LastAt()
      requires Ring() && line.edit != []
      ensures buf.Length == 128 && buf[At(Dec(e))] == line.edit[|line.edit| - 1]
    {
      hide Wrap, At, Dec, Minus;
      var n := |line.ready| + |line.edit|;
      WrapDec(r + n);
      WrapAt(r + n - 1);
      assert r + n - 1 == r + (n - 1);
      assert buf[..][At(r + (n - 1))] == (line.ready + line.edit)[n - 1];
    }

    lemma Apart()
      requires Ring()
      ensures buf.Length == 128 && (r == w <==> line.ready == []) && (e == w <==> line.edit == [])
          && Minus(e, r) == |line.ready| + |line.edit|
      ensures e == Wrap(r + 128) <==> |line.ready| + |line.edit| == 128
    {
      hide Wrap, At, Dec, Minus;
      var a, b := |line.ready|, |line.ready| + |line.edit|;
      WrapMinus(r, a, b);
      WrapMinus(r, 0, a);
      WrapMinus(r, 0, b);
      WrapMinus(r, b, 128);
    }

    /**
     A character is stored behind the line being edited; a newline, an end of file or the last free place commits the
     line.
     */
    method Store(d: byte)
      requires Ring() && |line.ready| + |line.edit| < 128
      modifies this`e, this`w, this`line, buf
      ensures Ring()
      ensures line == if Commits(d) || |old(line).ready| + |old(line).edit| == 127
          then Line(old(line).ready + old(line).edit + [d], [])
                      else old(line).(edit := old(line).edit + [d])
    {
      hide Wrap, At, Minus;
      ghost var n := |line.ready| + |line.edit|;
      WrapAt(r + n);
      WrapInc(r + n);
      WindowPush(buf[..], r, line.ready + line.edit, d);
      assert line.ready + line.edit + [d] == line.ready + (line.edit + [d]);
      assert r + n + 1 == r + (n + 1);
      WrapMinus(r, n + 1, 128);
      buf[At(e)] := d;
      e := Wrap(e + 1);
      if Commits(d) || e == Wrap(r + 128) {
        w := e;
        line := Line(line.ready + line.edit + [d], []);
        assert line.ready + [] == line.ready;
      } else {
        line := line.(edit := line.edit + [d]);
      }
    }

    /** consoleintr. */
    method Intr(c: byte)
      requires Valid()
      modifies this`w, this`e, this`line, this`typed, this`log, buf
      ensures Valid() && log == old(log) + [Key(c)]
      ensures line == Press(old(line), c) && typed == old(typed) + Committed(old(line), c)
    {
      ghost var l := line;
      assert Ring();
      Edit(c);
      assert Ring();
      ReplayMore(log, Key(c));
      typed, log := typed + Committed(l, c), log + [Key(c)];
    }

    method Edit(c: byte)
      requires Ring()
      modifies this`w, this`e, this`line, buf
      ensures Ring() && line == Press(old(line), c)
    {
      hide Wrap, At, Dec, Minus, Ring;
      if c == LIST {
      } else if c == KILL {
        Apart();
        if e != w {
          LastAt();
        }
        while e != w && buf[At(Dec(e))] != NEWLINE
          invariant Ring() && line.ready == old(line).ready
          invariant (e == w <==> line.edit == []) && (line.edit != [] ==> buf[At(Dec(e))] == line.edit[|line.edit| - 1])
          decreases |line.edit|
        {
          Erase();
          Apart();
          if e != w {
            LastAt();
          }
        }
        NoNewline();
      } else if c == BACK || c == DELETE {
        Apart();
        if e != w {
          Erase();
        }
      } else {
        Apart();
        if c != 0 && Minus(e, r) < 128 {
          Store(if c == RETURN then NEWLINE else c);
        }
      }
    }

    lemma NoNewline()
      requires Ring()
      ensures line.edit != [] ==> line.edit[|line.edit| - 1] != NEWLINE
    {
    }

    /**
     The first half of one turn of consoleread's loop: the next byte is taken; an end of file goes back if bytes were
     delivered before it.
     */
    method Take(me: nat, started: bool) returns (c: byte)
      requires Valid() && line.ready != []
      modifies this`r, this`line, this`gone, this`log
      ensures Valid() && c == old(line).ready[0]
      ensures c == EOF && started ==> line == old(line) && gone == old(gone) && log == old(log)
      ensures c != EOF || !started ==> line == old(line).(ready := old(line).ready[1..])
      ensures c != EOF || !started ==> gone == old(gone) + [Taken(c, me)] && log == old(log) + [Took(me)]
    {
      hide Replay, Editable;
      c := TakeByte(started);
      if !(c == EOF && started) {
        assert Ring();
        ReplayMore(log, Took(me));
        gone, log := gone + [Taken(c, me)], log + [Took(me)];
      }
    }

    method TakeByte(started: bool) returns (c: byte)
      requires Ring() && line.ready != []
      modifies this`r, this`line
      ensures Ring() && c == old(line).ready[0]
      ensures line == if c == EOF && started then old(line) else old(line).(ready := old(line).ready[1..])
    {
      hide Wrap, At, Minus, Dec;
      ghost var s := line.ready + line.edit;
      WindowPop(buf[..], r, s);
      WrapDec(r + 1);
      WrapMinus(r, 0, 0);
      c := buf[At(r)];
      r := Wrap(r + 1);
      if c == EOF && started {
        r := Dec(r);
      } else {
        assert s[1..] == line.ready[1..] + line.edit;
        Moved(old(r), |line.ready|);
        Moved(old(r), |s|);
        line := line.(ready := line.ready[1..]);
      }
    }

    /** While a reader sleeps, other things happen. */
    method Nap(events: seq<Event>)
      requires Valid()
      modifies this, buf
      ensures Valid() && log == old(log) + events
    {
      hide Valid, Press, Committed;
      for i := 0 to |events|
        invariant Valid() && log == old(log) + events[..i]
      {
        assert events[..i + 1] == events[..i] + [events[i]];
        match events[i] {
          case Key(c) => Intr(c);
          case Took(who) => OtherTakes(who);
        }
      }
    }

    method Sleep(me: nat, events: seq<Event>)
      requires Valid() && Took(me) !in events
      modifies this, buf
      ensures Valid() && Without(log, me) == Without(old(log), me) + events && Mine(gone, me) == Mine(old(gone), me)
      ensures old(gone) <= gone && old(typed) <= typed && (NoReads(events) ==> gone == old(gone))
    {
      hide Ring, Replay, Mine, Without;
      Nap(events);
      LaterOn(old(log), events, me);
      WithoutAll(old(log), events, me);
    }

    method OtherTakes(who: nat)
      requires Valid()
      modifies this`r, this`line, this`gone, this`log
      ensures Valid() && log == old(log) + [Took(who)]
    {
      Apart();
      if r != w {
        var c := Take(who, false);
      } else {
        ReplayMore(log, Took(who));
        log := log + [Took(who)];
      }
    }

    /** What the ghosts say: TakenInOrder, of this console. */
    lemma Sound()
      requires Valid()
      ensures typed == Bytes(gone) + line.ready
    {
      hide Ring, Replay;
      TakenInOrder(log);
    }

    /** What a read has done so far: it took bytes, and slept as often as slept says. */
    ghost predicate Since(log0: seq<Event>, gone0: seq<Taken>, typed0: seq<byte>, me: nat, bytes: seq<byte>,
        naps: seq<seq<Event>>, slept: nat)
      reads this`log, this`gone, this`typed
    {
      && slept <= |naps| && Without(log, me) == Without(log0, me) + InTurn(naps[..slept])
      && gone0 <= gone && typed0 <= typed && Mine(gone, me) == Mine(gone0, me) + bytes
      && (Alone(naps) ==> gone == gone0 + Tagged(bytes, me))
    }

    lemma Begun(me: nat, naps: seq<seq<Event>>)
      ensures Since(log, gone, typed, me, [], naps, 0)
    {
      assert naps[..0] == [];
    }

    /** It sleeps while there is nothing to read; killed: there still is nothing. */
    method Wait(ghost log0: seq<Event>, ghost gone0: seq<Taken>, ghost typed0: seq<byte>, me: nat,
        ghost bytes: seq<byte>, naps: seq<seq<Event>>, slept0: nat) returns (killed: bool, slept: nat)
      requires Valid() && Since(log0, gone0, typed0, me, bytes, naps, slept0)
      requires forall nap :: nap in naps ==> Took(me) !in nap
      modifies this, buf
      ensures Valid() && Since(log0, gone0, typed0, me, bytes, naps, slept)
      ensures killed <==> line.ready == []
      ensures killed ==> slept == |naps|
    {
      hide Ring, Replay, Mine, Without, InTurn, Tagged;
      slept := slept0;
      Apart();
      while r == w
        invariant Valid() && Since(log0, gone0, typed0, me, bytes, naps, slept) && (r == w <==> line.ready == [])
        decreases |naps| - slept
      {
        if slept == |naps| {
          return true, slept;
        }
        Sleep(me, naps[slept]);
        InTurnMore(naps, slept);
        slept := slept + 1;
        Apart();
      }
      killed := false;
    }

    method TakeNext(ghost log0: seq<Event>, ghost gone0: seq<Taken>, ghost typed0: seq<byte>, me: nat,
        ghost bytes: seq<byte>, ghost naps: seq<seq<Event>>, ghost slept: nat, started: bool) returns (c: byte)
      requires Valid() && line.ready != [] && Since(log0, gone0, typed0, me, bytes, naps, slept)
      modifies this`r, this`line, this`gone, this`log
      ensures Valid() && (c == EOF && started ==> line == old(line) && line.ready[0] == EOF)
      ensures Since(log0, gone0, typed0, me, if c == EOF && started then bytes else bytes + [c], naps, slept)
    {
      hide Ring, Replay, Mine, Without, InTurn, Tagged;
      ghost var was, past := gone, log;
      c := Take(me, started);
      MineMore(was, Taken(c, me), me);
      WithoutMore(past, Took(me), me);
      TaggedMore(bytes, c, me);
    }

    /** A read that comes back has done what it should. */
    lemma Ended(log0: seq<Event>, gone0: seq<Taken>, found: seq<byte>, typed0: seq<byte>, me: nat, n: nat, avail: nat,
        naps: seq<seq<Event>>, slept: nat, got: seq<byte>, extra: seq<byte>)
      requires Valid() && Since(log0, gone0, typed0, me, got + extra, naps, slept) && typed0 == Bytes(gone0) + found
      requires |got| <= Least(n, avail) && InLine(got)
      requires (extra == [EOF] && got == []) || extra + line.ready == [] || |got| == Least(n, avail)
          || (extra == [] && Stops(got, line.ready, Least(n, avail)))
      ensures slept <= |naps| && Without(log, me) == Without(log0, me) + InTurn(naps[..slept])
      ensures gone0 <= gone && typed0 <= typed == Bytes(gone) + line.ready
      ensures Mine(gone, me) == Mine(gone0, me) + got + extra
      ensures Alone(naps) ==> gone == gone0 + Tagged(got + extra, me)
      ensures Alone(naps) ==> got == LineOf(found + typed[|typed0|..], Least(n, avail))
    {
      hide Ring, Replay, Mine, Without, InTurn, Tagged, Bytes, LineOf, InLine, Stops;
      Sound();
      assert Mine(gone0, me) + got + extra == Mine(gone0, me) + (got + extra);
      if Alone(naps) {
        hide Valid;
        Delivered(gone0, found, gone, line.ready, me, Least(n, avail), got, extra);
      }
    }

    /**
     consoleread. naps: what happens each time it sleeps; when they run out the reader has been killed. avail
     bytes of the destination can be written. got: what was delivered; extra: a byte taken but not delivered;
     slept: how often it slept.
     */
    method Read(me: nat, n: nat, naps: seq<seq<Event>>, avail: nat) returns (ret: int, got: seq<byte>,
        ghost extra: seq<byte>, slept: nat)
      requires Valid()
      requires forall nap :: nap in naps ==> Took(me) !in nap
      modifies this, buf
      ensures Valid() && slept <= |naps| && Without(log, me) == Without(old(log), me) + InTurn(naps[..slept])
      ensures old(gone) <= gone && old(typed) <= typed && typed == Bytes(gone) + line.ready
      ensures Mine(gone, me) == Mine(old(gone), me) + got + extra
      ensures |got| <= n && InLine(got) && (ret == -1 || ret == |got|)
      ensures ret == -1 ==> slept == |naps| && line.ready == []
      ensures extra == [] || (extra == [EOF] && got == [] && ret == 0)
          || (|extra| == 1 && extra[0] != EOF && |got| == avail < n)
      ensures ret == -1 ==> extra == []
      ensures ret != -1 && extra == [] ==> Stops(got, line.ready, n)
      ensures Alone(naps) ==> gone == old(gone) + Tagged(got + extra, me)
      ensures Alone(naps) ==> got == LineOf(old(line).ready + typed[|old(typed)|..], Least(n, avail))
    {
      hide Ring, Replay, Since, LineOf, Bytes, Mine, Without, InTurn, Tagged, NoCommits, InLine, Stops;
      LineGrows([], 0);
      var left := n;
      got, extra, slept := [], [], 0;
      Sound();
      Begun(me, naps);
      while left > 0
        invariant Valid() && 0 <= left == n - |got| && |got| <= avail && extra == []
        invariant InLine(got) && NoCommits(got)
        invariant Since(old(log), old(gone), old(typed), me, got, naps, slept)
        decreases left
      {
        var killed;
        killed, slept := Wait(old(log), old(gone), old(typed), me, got, naps, slept);
        if killed {
          assert got + [] == got;
          Ended(old(log), old(gone), old(line).ready, old(typed), me, n, avail, naps, slept, got, []);
          return -1, got, [], slept;
        }
        var c := TakeNext(old(log), old(gone), old(typed), me, got, naps, slept, left < n);
        LineGrows(got, c);
        if c == EOF {
          extra := if left < n then [] else [EOF];
          break;
        }
        if |got| == avail {
          extra := [c];
          break;
        }
        got := got + [c];
        left := left - 1;
        if c == NEWLINE {
          break;
        }
      }
      ret := n - left;
      WhyStops(got, line.ready, n, Least(n, avail));
      assert extra == [] ==> got + extra == got;
      Ended(old(log), old(gone), old(line).ready, old(typed), me, n, avail, naps, slept, got, extra);
    }
  }

  lemma Moved(r: nat, k: nat)
    requires r < 0x1_0000_0000 && k > 0
    ensures Wrap(Wrap(r + 1) + (k - 1)) == Wrap(r + k)
  {
  }

  predicate NoCommits(s: seq<byte>) { forall i :: 0 <= i < |s| ==> !Commits(s[i]) }

  /** At most one line: a newline only at the end, and no end of file. */
  predicate InLine(s: seq<byte>) {
    forall i :: 0 <= i < |s| ==> s[i] != EOF && (s[i] == NEWLINE ==> i == |s| - 1)
  }

  lemma LineGrows(s: seq<byte>, c: byte)
    requires NoCommits(s)
    ensures InLine(s) && (c != EOF ==> InLine(s + [c])) && (!Commits(c) ==> NoCommits(s + [c])) && NoCommits([])
  {
  }

  lemma WhyStops(got: seq<byte>, ready: seq<byte>, n: nat, m: nat)
    ensures |got| == n ==> Stops(got, ready, n)
    ensures got != [] && (got[|got| - 1] == NEWLINE || (ready != [] && ready[0] == EOF)) ==>
              Stops(got, ready, n) && Stops(got, ready, m)
  {
  }

  /** Why a read comes back: it has all it asked for, or a line, or there is an end of file ahead. */
  predicate Stops(got: seq<byte>, ready: seq<byte>, n: nat) {
    |got| == n || (got != [] && (got[|got| - 1] == NEWLINE || (ready != [] && ready[0] == EOF)))
  }

  /** The line a read of n bytes is due. */
  function LineOf(s: seq<byte>, n: nat): seq<byte> {
    if n == 0 || s == [] || s[0] == EOF then []
    else if s[0] == NEWLINE then [NEWLINE]
    else [s[0]] + LineOf(s[1..], n - 1)
  }

  /** A line ends with the newline (10) that is part of it, in front of the end of file (4), or after n bytes. */
  lemma {:induction false} LineIs(s: seq<byte>, i: nat, n: nat)
    requires i <= |s| && (forall j :: 0 <= j < i ==> s[j] != 10 && s[j] != 4) && (i < |s| ==> s[i] == 10 || s[i] == 4)
    ensures LineOf(s, n) == if n <= i then s[..n] else if i < |s| && s[i] == 10 then s[..i + 1] else s[..i]
    decreases n
  {
    if n > 0 && i > 0 {
      hide LineOf;
      var t := s[1..];
      LineStep(s, n);
      LineIs(t, i - 1, n - 1);
      if n <= i {
        FrontStep(s, n);
      } else {
        FrontStep(s, i);
        if i < |s| {
          FrontStep(s, i + 1);
        }
      }
    } else {
      LineEnds(s, n);
    }
  }

  lemma LineStep(s: seq<byte>, n: nat)
    requires n > 0 && s != [] && s[0] != 10 && s[0] != 4
    ensures LineOf(s, n) == [s[0]] + LineOf(s[1..], n - 1)
  {
  }

  lemma LineEnds(s: seq<byte>, n: nat)
    ensures n == 0 || s == [] || s[0] == 4 ==> LineOf(s, n) == []
    ensures n > 0 && s != [] && s[0] == 10 ==> LineOf(s, n) == [s[0]]
  {
  }

  lemma FrontStep(s: seq<byte>, k: nat)
    requires 0 < k <= |s|
    ensures s[..k] == [s[0]] + s[1..][..k - 1]
  {
  }

  predicate Alone(naps: seq<seq<Event>>) { forall k :: 0 <= k < |naps| ==> NoReads(naps[k]) }

  function Least(a: nat, b: nat): nat { if a < b then a else b }

  lemma Nothing(me: nat)
    ensures InTurn([]) == [] && Tagged([], me) == []
  {
  }

  lemma TaggedMore(s: seq<byte>, c: byte, me: nat)
    ensures Tagged(s + [c], me) == Tagged(s, me) + [Taken(c, me)]
  {
  }

  /**
   A read that comes back for one of its reasons delivers the line it is due out of the bytes it finds: what it
   delivers, what it drops and what it leaves.
   */
  lemma {:induction false} DeliversItsLine(got: seq<byte>, extra: seq<byte>, ready: seq<byte>, n: nat)
    requires |got| <= n && InLine(got)
    requires (extra == [EOF] && got == []) || extra + ready == [] || |got| == n || (extra == [] && Stops(got, ready, n))
    ensures got == LineOf(got + extra + ready, n)
  {
    var s := got + extra + ready;
    if got != [] && n > 0 {
      if got[0] == NEWLINE {
        assert got == [NEWLINE];
      } else {
        assert s[1..] == got[1..] + extra + ready;
        if |got| > 1 {
          DeliversItsLine(got[1..], extra, ready, n - 1);
        } else if n > 1 {
          assert got[1..] + extra + ready == ready;
        }
      }
    }
  }

  /** With no other read about, these are the bytes that were there and those committed since. */
  lemma Delivered(was: seq<Taken>, found: seq<byte>, gone: seq<Taken>, left: seq<byte>, me: nat, n: nat,
        got: seq<byte>, extra: seq<byte>)
    requires gone == was + Tagged(got + extra, me) && Bytes(was) + found <= Bytes(gone) + left
    requires |got| <= n && InLine(got)
    requires (extra == [EOF] && got == []) || extra + left == [] || |got| == n || (extra == [] && Stops(got, left, n))
    ensures got == LineOf(found + (Bytes(gone) + left)[|Bytes(was) + found|..], n)
  {
    hide LineOf, InLine, Stops, Bytes, Tagged;
    DeliversItsLine(got, extra, left, n);
    BytesTagged(was, got + extra, me);
    TailIs(Bytes(was), found, Bytes(gone) + left, got + extra + left);
  }

  lemma BytesTagged(gone: seq<Taken>, bytes: seq<byte>, me: nat)
    ensures Bytes(gone + Tagged(bytes, me)) == Bytes(gone) + bytes
  {
  }

  lemma TailIs(a: seq<byte>, b: seq<byte>, all: seq<byte>, c: seq<byte>)
    requires a + b <= all == a + c
    ensures b + all[|a + b|..] == c
  {
    assert forall i :: 0 <= i < |b| ==> b[i] == (a + b)[|a| + i] == all[|a| + i] == c[i];
    assert forall i :: |b| <= i < |c| ==> c[i] == all[|a| + i];
  }
}
