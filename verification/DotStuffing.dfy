/**
 The bytes of the DATA phase, and a receiver that follows section 4.5.2 of RFC 5321: it ends
 lines at CR LF only, and takes one leading dot off every line but the last.
 */
module DotStuffing {
  import opened Bytes
  import opened DeliveryTypes

  const CR: Byte := 13
  const LF: Byte := 10
  const DOT: Byte := 46
  const CRLF: seq<Byte> := [CR, LF]
  const END: seq<Byte> := [DOT, CR, LF]

  // ---------------------------------------------------------------- the sender

  /** re.sub(br"(?m)^\.", b"..", m): a line starts at the start and after every LF. */
  function Stuff(m: seq<Byte>, lineStart: bool): seq<Byte> {
    if m == [] then []
    else (if lineStart && m[0] == DOT then [DOT, DOT] else [m[0]]) + Stuff(m[1..], m[0] == LF)
  }

  predicate EndsWithCrlf(m: seq<Byte>) {
    |m| >= 2 && m[|m| - 2] == CR && m[|m| - 1] == LF
  }

  function Wire(m: seq<Byte>): seq<Byte> {
    var stuffed := Stuff(m, true);
    (if EndsWithCrlf(stuffed) then stuffed else stuffed + CRLF) + END
  }

  // ---------------------------------------------------------------- the receiver

  datatype Mode = LineStart | Text | AfterCr | AfterBareLf

  /** Only CR LF starts a line for the receiver. */
  function Next(mode: Mode, c: Byte): Mode {
    if c == LF then if mode.AfterCr? then LineStart else AfterBareLf
    else if c == CR then AfterCr
    else Text
  }

  /** What was received before the end of the message, and the bytes after it. */
  datatype Received = Received(content: seq<Byte>, rest: seq<Byte>)

  function Receive(wire: seq<Byte>, mode: Mode): Option<Received> {
    if wire == [] then None
    else if mode.LineStart? && END <= wire then Some(Received([], wire[3..]))
    else if mode.LineStart? && wire[0] == DOT then Receive(wire[1..], Text)
    else
      var more := Receive(wire[1..], Next(mode, wire[0]));
      if more.None? then None else Some(Received([wire[0]] + more.value.content, more.value.rest))
  }

  // ---------------------------------------------------------------- what arrives

  /** The message with every dot that follows a bare LF doubled. */
  function Arriving(m: seq<Byte>, mode: Mode): (r: seq<Byte>)
    ensures |r| >= |m|
  {
    if m == [] then []
    else (if mode.AfterBareLf? && m[0] == DOT then [DOT, DOT] else [m[0]]) + Arriving(m[1..], Next(mode, m[0]))
  }

  function ModeAt(m: seq<Byte>, mode: Mode, k: nat): Mode
    requires k <= |m|
  {
    if k == 0 then mode else Next(ModeAt(m, mode, k - 1), m[k - 1])
  }

  lemma {:induction false} ModeAtTail(m: seq<Byte>, mode: Mode, k: nat)
    requires 0 < k <= |m|
    ensures ModeAt(m, mode, k) == ModeAt(m[1..], Next(mode, m[0]), k - 1)
  {
    if k > 1 {
      ModeAtTail(m, mode, k - 1);
    }
  }

  function Prepend(content: seq<Byte>, r: Option<Received>): Option<Received> {
    if r.None? then None else Some(Received(content + r.value.content, r.value.rest))
  }

  lemma PrependTwice(a: seq<Byte>, b: seq<Byte>, r: Option<Received>)
    ensures Prepend(a, Prepend(b, r)) == Prepend(a + b, r)
  {
    if r.Some? {
      assert a + (b + r.value.content) == a + b + r.value.content;
    }
  }

  lemma PrependNothing(r: Option<Received>)
    ensures Prepend([], r) == r
  {
    if r.Some? {
      assert [] + r.value.content == r.value.content;
    }
  }

  lemma ReceiveByte(c: Byte, more: seq<Byte>, mode: Mode)
    requires !(mode.LineStart? && c == DOT)
    ensures Receive([c] + more, mode) == Prepend([c], Receive(more, Next(mode, c)))
  {
    var w := [c] + more;
    assert w[1..] == more && w[0] == c;
    if END <= w {
      assert w[0] == END[0];
    }
  }

  /** A doubled dot is one dot on a line of its own, and two after a bare LF. */
  lemma ReceiveDots(more: seq<Byte>, mode: Mode)
    ensures Receive([DOT, DOT] + more, mode) == Prepend(if mode.LineStart? then [DOT] else [DOT, DOT], Receive(more, Text))
  {
    var w := [DOT, DOT] + more;
    assert w[1..] == [DOT] + more && w[1] == DOT;
    ReceiveByte(DOT, more, Text);
    if !mode.LineStart? {
      assert w == [DOT] + ([DOT] + more);
      ReceiveByte(DOT, [DOT] + more, mode);
      PrependTwice([DOT], [DOT], Receive(more, Text));
      assert [DOT] + [DOT] == [DOT, DOT];
    }
  }

  /** A stuffed message never ends early and arrives as `Arriving` says. */
  lemma {:induction false} StuffedArrives(m: seq<Byte>, mode: Mode, tail: seq<Byte>)
    requires tail != []
    ensures Receive(Stuff(m, mode.LineStart? || mode.AfterBareLf?) + tail, mode)
         == Prepend(Arriving(m, mode), Receive(tail, ModeAt(m, mode, |m|)))
  {
    hide Receive, Prepend;
    var atStart := mode.LineStart? || mode.AfterBareLf?;
    if m == [] {
      assert Stuff(m, atStart) + tail == tail;
      PrependNothing(Receive(tail, mode));
    } else {
      var next := Next(mode, m[0]);
      var more := Stuff(m[1..], m[0] == LF) + tail;
      var sent := if atStart && m[0] == DOT then [DOT, DOT] else [m[0]];
      var kept := if mode.AfterBareLf? && m[0] == DOT then [DOT, DOT] else [m[0]];
      assert Stuff(m, atStart) + tail == sent + more;
      if atStart && m[0] == DOT {
        ReceiveDots(more, mode);
      } else {
        ReceiveByte(m[0], more, mode);
      }
      StuffedArrives(m[1..], next, tail);
      ModeAtTail(m, mode, |m|);
      PrependTwice(kept, Arriving(m[1..], next), Receive(tail, ModeAt(m, mode, |m|)));
    }
  }

  lemma {:induction false} StuffKeepsEnd(m: seq<Byte>, lineStart: bool)
    ensures m != [] ==> Stuff(m, lineStart) != [] && Stuff(m, lineStart)[|Stuff(m, lineStart)| - 1] == m[|m| - 1]
    ensures EndsWithCrlf(Stuff(m, lineStart)) <==> EndsWithCrlf(m)
  {
    if m != [] {
      StuffKeepsEnd(m[1..], m[0] == LF);
      var rest := Stuff(m[1..], m[0] == LF);
      assert Stuff(m, lineStart) == (if lineStart && m[0] == DOT then [DOT, DOT] else [m[0]]) + rest;
      if |m| == 2 {
        assert m[1..][1..] == [];
        assert rest == (if m[0] == LF && m[1] == DOT then [DOT, DOT] else [m[1]]) + [];
      }
    }
  }

  lemma ModeAtEnd(m: seq<Byte>, k: nat)
    requires k <= |m|
    ensures ModeAt(m, LineStart, k).AfterCr? <==> k > 0 && m[k - 1] == CR
    ensures ModeAt(m, LineStart, k).AfterBareLf? <==> k > 0 && m[k - 1] == LF && !(k > 1 && m[k - 2] == CR)
    ensures ModeAt(m, LineStart, k).LineStart? <==> k == 0 || (k > 1 && m[k - 1] == LF && m[k - 2] == CR)
  {
  }

  function Terminated(m: seq<Byte>): seq<Byte> {
    if EndsWithCrlf(m) then m else m + CRLF
  }

  lemma ClosingLine(mode: Mode)
    ensures Receive(END, LineStart) == Some(Received([], []))
    ensures Receive(CRLF + END, mode) == Some(Received(CRLF, []))
  {
    assert END[3..] == [];
    ReceiveByte(LF, END, AfterCr);
    assert CRLF + END == [CR] + ([LF] + END);
    ReceiveByte(CR, [LF] + END, mode);
    assert [LF] + [] == [LF] && [CR] + [LF] == CRLF;
  }

  /** What arrives, closed by CR LF. */
  function Delivered(m: seq<Byte>): seq<Byte> {
    if EndsWithCrlf(m) then Arriving(m, LineStart) else Arriving(m, LineStart) + CRLF
  }

  /** The receiver takes exactly the bytes of this message, whatever the message is. */
  lemma WholeWireConsumed(m: seq<Byte>)
    ensures Receive(Wire(m), LineStart) == Some(Received(Delivered(m), []))
  {
    StuffKeepsEnd(m, true);
    var mode := ModeAt(m, LineStart, |m|);
    var tail := if EndsWithCrlf(m) then END else CRLF + END;
    StuffedArrives(m, LineStart, tail);
    ClosingLine(mode);
    assert Wire(m) == Stuff(m, true) + tail;
    if EndsWithCrlf(m) {
      ModeAtEnd(m, |m|);
      assert Arriving(m, LineStart) + [] == Arriving(m, LineStart);
    }
  }

  // ---------------------------------------------------------------- when the message comes back

  /** Some dot follows an LF that no CR precedes. */
  predicate BareDot(m: seq<Byte>) {
    exists k :: 1 <= k < |m| && DotAfterBareLf(m, k)
  }

  predicate DotAfterBareLf(m: seq<Byte>, k: nat)
    requires 1 <= k < |m|
  {
    m[k] == DOT && m[k - 1] == LF && !(k > 1 && m[k - 2] == CR)
  }

  /** No byte from position k on is a dot after a bare LF. */
  predicate NoneDoubled(m: seq<Byte>, mode: Mode, k: nat) {
    forall j :: k <= j < |m| ==> !(m[j] == DOT && ModeAt(m, mode, j).AfterBareLf?)
  }

  lemma NoneDoubledTail(m: seq<Byte>, mode: Mode)
    requires m != []
    ensures NoneDoubled(m[1..], Next(mode, m[0]), 0) <==> NoneDoubled(m, mode, 1)
  {
    var next := Next(mode, m[0]);
    hide ModeAt;
    forall k | 1 <= k < |m| ensures ModeAt(m, mode, k) == ModeAt(m[1..], next, k - 1) && m[k] == m[1..][k - 1] {
      ModeAtTail(m, mode, k);
    }
    if NoneDoubled(m, mode, 1) {
      forall k | 0 <= k < |m[1..]| ensures !(m[1..][k] == DOT && ModeAt(m[1..], next, k).AfterBareLf?) {
        assert m[k + 1] == m[1..][k] && ModeAt(m, mode, k + 1) == ModeAt(m[1..], next, k);
      }
    }
  }

  lemma {:induction false} ArrivesUnchanged(m: seq<Byte>, mode: Mode)
    ensures |Arriving(m, mode)| == |m| <==> NoneDoubled(m, mode, 0)
    ensures |Arriving(m, mode)| == |m| ==> Arriving(m, mode) == m
  {
    if m != [] {
      ArrivesUnchanged(m[1..], Next(mode, m[0]));
      NoneDoubledTail(m, mode);
      assert ModeAt(m, mode, 0) == mode;
      hide ModeAt;
    }
  }

  /**
   The receiver gets the message back, with a final CR LF if it had none, if and only if no
   dot follows a bare LF. Such a dot is doubled by the sender, who starts a line at every
   LF, and the receiver, who does not, keeps both.
   */
  lemma RoundTrip(m: seq<Byte>)
    ensures Receive(Wire(m), LineStart) == Some(Received(Terminated(m), [])) <==> !BareDot(m)
  {
    WholeWireConsumed(m);
    ArrivesUnchanged(m, LineStart);
    forall k | 0 <= k < |m|
      ensures ModeAt(m, LineStart, k).AfterBareLf? && m[k] == DOT <==> k >= 1 && DotAfterBareLf(m, k)
    {
      ModeAtEnd(m, k);
    }
    var a := Arriving(m, LineStart);
    if |a| == |m| {
      assert a == m;
      assert !BareDot(m);
    } else {
      assert BareDot(m);
      assert |Delivered(m)| != |Terminated(m)|;
    }
  }

  lemma DottedBareLf()
    ensures Receive(Wire([LF, DOT]), LineStart) == Some(Received([LF, DOT, DOT, CR, LF], []))
  {
    var m: seq<Byte> := [LF, DOT];
    WholeWireConsumed(m);
    assert m[1..] == [DOT] && m[1..][1..] == [];
    assert Arriving(m[1..], AfterBareLf) == [DOT, DOT] + [];
    assert [LF] + ([DOT, DOT] + []) + CRLF == [LF, DOT, DOT, CR, LF];
  }

  // ---------------------------------------------------------------- the end-of-data sequence

  /** After an LF, or at the start of a line, a dot is followed by another dot. */
  lemma {:induction false} DotsDoubled(m: seq<Byte>, lineStart: bool, k: nat)
    requires var s := Stuff(m, lineStart); k < |s| && s[k] == DOT && (if k == 0 then lineStart else s[k - 1] == LF)
    ensures var s := Stuff(m, lineStart); k + 1 < |s| && s[k + 1] == DOT
  {
    if m != [] && !(lineStart && m[0] == DOT) && k > 0 {
      assert Stuff(m, lineStart)[1..] == Stuff(m[1..], m[0] == LF);
      DotsDoubled(m[1..], m[0] == LF, k - 1);
    } else if m != [] && lineStart && m[0] == DOT && k >= 2 {
      assert Stuff(m, lineStart)[2..] == Stuff(m[1..], false);
      DotsDoubled(m[1..], false, k - 2);
    }
  }

  /** LF, dot, CR, LF occurs in the bytes sent only at their very end, and they do not begin with the closing line. */
  lemma EndOnlyAtEnd(m: seq<Byte>, k: nat)
    requires var w := Wire(m); k + 4 <= |w| && w[k..k + 4] == [LF] + END
    ensures k + 4 == |Wire(m)|
    ensures !(END <= Wire(m))
  {
    var s, w := Stuff(m, true), Wire(m);
    var body := if EndsWithCrlf(s) then s else s + CRLF;
    assert w == body + END;
    assert w[k] == w[k..k + 4][0] && w[k + 1] == w[k..k + 4][1] && w[k + 2] == w[k..k + 4][2];
    if k + 1 < |s| {
      assert s[k] == LF && s[k + 1] == DOT;
      DotsDoubled(m, true, k + 1);
    }
    StartsOtherwise(m);
  }

  lemma StartsOtherwise(m: seq<Byte>)
    ensures !(END <= Wire(m))
  {
    var s, w := Stuff(m, true), Wire(m);
    if END <= w {
      assert w[0] == END[0] && w[1] == END[1];
      if s != [] && s[0] == DOT {
        DotsDoubled(m, true, 0);
      }
    }
  }
}
