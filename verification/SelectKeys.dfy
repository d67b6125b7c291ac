/**
 Raw key decoding for the select widget, and what a key stream makes of the selection.
 */
module SelectKeys {
  import opened Utf8
  import opened Arithmetic

  datatype Key = KeyNone | KeyUp | KeyDown | KeyConfirm | KeyCancel

  /** What ends the input once its bytes are used up. */
  datatype Ending = Eof | Broken

  datatype KeyResult = Pressed(key: Key) | Failed(why: Ending)

  /** The key at the front of a byte stream and the bytes it takes; `Failed` when the stream ends
      inside it. */
  function Decode(input: seq<byte>, ending: Ending): (r: (KeyResult, nat))
    ensures r.1 <= |input|
    ensures r.0.Pressed? ==> 1 <= r.1 <= 3
    ensures r.0 == Pressed(KeyUp) || r.0 == Pressed(KeyDown) ==> r.1 == 3
    ensures r.0 == Pressed(KeyConfirm) || r.0 == Pressed(KeyCancel) ==> r.1 == 1
    ensures r.0.Failed? ==> r.1 == |input| <= 2
  {
    if input == [] then (Failed(ending), 0)
    else if input[0] == 0x0D || input[0] == 0x0A then (Pressed(KeyConfirm), 1)
    else if input[0] == 0x03 then (Pressed(KeyCancel), 1)
    else if input[0] != 0x1B then (Pressed(KeyNone), 1)
    else if |input| == 1 then (Failed(ending), 1)
    else if input[1] != 0x5B then (Pressed(KeyNone), 2)
    else if |input| == 2 then (Failed(ending), 2)
    else if input[2] == 0x41 then (Pressed(KeyUp), 3)
    else if input[2] == 0x42 then (Pressed(KeyDown), 3)
    else (Pressed(KeyNone), 3)
  }

  /** A buffered reader: the bytes still to come and how the stream ends. */
  class Reader {
    var input: seq<byte>
    const ending: Ending

    constructor (input: seq<byte>, ending: Ending)
      ensures this.input == input && this.ending == ending
    {
      this.input := input;
      this.ending := ending;
    }

    method ReadByte() returns (b: byte, ok: bool)
      modifies this`input
      ensures ok == (old(input) != [])
      ensures ok ==> b == old(input)[0] && input == old(input)[1..]
      ensures !ok ==> input == old(input)
    {
      if input == [] {
        return 0, false;
      }
      b, ok := input[0], true;
      input := input[1..];
    }

    /** Decodes exactly one key. */
    method ReadSelectKey() returns (r: KeyResult)
      modifies this`input
      ensures r == Decode(old(input), ending).0
      ensures input == old(input)[Decode(old(input), ending).1..]
    {
      var b, ok := ReadByte();
      if !ok {
        return Failed(ending);
      }
      if b == 0x0D || b == 0x0A {
        return Pressed(KeyConfirm);
      } else if b == 0x03 {
        return Pressed(KeyCancel);
      } else if b == 0x1B {
        var b2, ok2 := ReadByte();
        if !ok2 {
          return Failed(ending);
        }
        if b2 != 0x5B {
          return Pressed(KeyNone);
        }
        var b3, ok3 := ReadByte();
        if !ok3 {
          return Failed(ending);
        }
        if b3 == 0x41 {
          return Pressed(KeyUp);
        } else if b3 == 0x42 {
          return Pressed(KeyDown);
        }
      }
      return Pressed(KeyNone);
    }
  }

  // ---------------------------------------------------------------------------------------
  // The meaning of a key stream
  // ---------------------------------------------------------------------------------------

  /** The keys of a stream up to the one that ends the prompt. */
  function Moves(input: seq<byte>, ending: Ending): (ks: seq<Key>)
    decreases |input|
  {
    var (r, n) := Decode(input, ending);
    if r.Failed? || r.key == KeyConfirm || r.key == KeyCancel then []
    else [r.key] + Moves(input[n..], ending)
  }

  /** Net steps down the list. */
  function Net(ks: seq<Key>): (n: int) {
    if ks == [] then 0
    else (if ks[0] == KeyDown then 1 else if ks[0] == KeyUp then -1 else 0) + Net(ks[1..])
  }

  function Count(ks: seq<Key>, k: Key): (n: nat) {
    if ks == [] then 0 else (if ks[0] == k then 1 else 0) + Count(ks[1..], k)
  }

  lemma {:induction false} NetIsDownsMinusUps(ks: seq<Key>)
    ensures Net(ks) == Count(ks, KeyDown) - Count(ks, KeyUp)
  {
    if ks != [] {
      NetIsDownsMinusUps(ks[1..]);
    }
  }

  /** One arrow press on a wrapping list of `n` options. */
  function Press(current: nat, key: Key, n: nat): (r: nat)
    requires current < n
    ensures r < n
  {
    match key
    case KeyUp => (current - 1 + n) % n
    case KeyDown => (current + 1) % n
    case _ => current
  }

  function Walk(current: nat, ks: seq<Key>, n: nat): (r: nat)
    requires current < n
    ensures r < n
    decreases |ks|
  {
    if ks == [] then current else Walk(Press(current, ks[0], n), ks[1..], n)
  }

  /** An arrow press adds its step up to a multiple of `n`. */
  lemma PressStep(current: nat, key: Key, n: nat) returns (q: int)
    requires current < n
    ensures current + Net([key]) == q * n + Press(current, key, n)
  {
    if key == KeyDown {
      q := if current + 1 == n then 1 else 0;
      DivModUnique(current + 1, n, q, if current + 1 == n then 0 else current + 1);
    } else if key == KeyUp {
      DivModUnique(current - 1 + n, n, if current == 0 then 0 else 1, if current == 0 then n - 1 else current - 1);
      q := if current == 0 then -1 else 0;
    } else {
      q := 0;
    }
  }

  lemma AddSteps(n: nat, q0: int, q1: int)
    ensures (q0 + q1) * n == q0 * n + q1 * n
  {
  }

  lemma {:induction false} WalkSteps(current: nat, ks: seq<Key>, n: nat) returns (q: int)
    requires current < n
    ensures current + Net(ks) == q * n + Walk(current, ks, n)
    decreases |ks|
  {
    if ks == [] {
      q := 0;
    } else {
      var q0 := PressStep(current, ks[0], n);
      var q1 := WalkSteps(Press(current, ks[0], n), ks[1..], n);
      q := q0 + q1;
      assert Net([ks[0]]) + Net(ks[1..]) == Net(ks);
      AddSteps(n, q0, q1);
    }
  }

  /** Where the arrows lead: (start + downs - ups) mod n. */
  lemma WalkIsModular(current: nat, ks: seq<Key>, n: nat)
    requires current < n
    ensures Walk(current, ks, n) == (current + Count(ks, KeyDown) - Count(ks, KeyUp)) % n
  {
    NetIsDownsMinusUps(ks);
    var q := WalkSteps(current, ks, n);
    DivModUnique(current + Net(ks), n, q, Walk(current, ks, n));
  }

  // ---------------------------------------------------------------------------------------
  // The bytes behind the keys
  // ---------------------------------------------------------------------------------------

  const UP_ARROW: seq<byte> := [0x1B, 0x5B, 0x41]
  const DOWN_ARROW: seq<byte> := [0x1B, 0x5B, 0x42]

  /** The arrow sequences, CR, LF and Ctrl-C at the front are the four keys, and nothing else is. */
  lemma KeyBytes(input: seq<byte>, ending: Ending)
    ensures var k := Decode(input, ending).0;
            && (k == Pressed(KeyUp) <==> UP_ARROW <= input)
            && (k == Pressed(KeyDown) <==> DOWN_ARROW <= input)
            && (k == Pressed(KeyConfirm) <==> input != [] && input[0] in {0x0D, 0x0A})
            && (k == Pressed(KeyCancel) <==> input != [] && input[0] == 0x03)
  {
    assert UP_ARROW <= input <==> |input| >= 3 && input[0] == 0x1B && input[1] == 0x5B && input[2] == 0x41;
    assert DOWN_ARROW <= input <==> |input| >= 3 && input[0] == 0x1B && input[1] == 0x5B && input[2] == 0x42;
  }

  /** What an operator types before the end: the two arrows, and what is ignored, a byte, a key with Alt, or
      another cursor key. */
  datatype Stroke = ArrowUp | ArrowDown | Letter(b: byte) | Alt(b: byte) | Other(b: byte) {
    predicate Ok() {
      match this
      case Letter(b) => b !in {0x0D, 0x0A, 0x03, 0x1B}
      case Alt(b) => b != 0x5B
      case Other(b) => b !in {0x41, 0x42}
      case _ => true
    }

    function Bytes(): (bs: seq<byte>) {
      match this
      case ArrowUp => UP_ARROW
      case ArrowDown => DOWN_ARROW
      case Letter(b) => [b]
      case Alt(b) => [0x1B, b]
      case Other(b) => [0x1B, 0x5B, b]
    }

    function Key(): (k: Key) {
      if ArrowUp? then KeyUp else if ArrowDown? then KeyDown else KeyNone
    }
  }

  predicate StrokesOk(ks: seq<Stroke>) {
    forall i | 0 <= i < |ks| :: ks[i].Ok()
  }

  /** The bytes of those strokes. */
  function Spelled(ks: seq<Stroke>): (bs: seq<byte>) {
    if ks == [] then [] else ks[0].Bytes() + Spelled(ks[1..])
  }

  function Keys(ks: seq<Stroke>): (r: seq<Key>) {
    if ks == [] then [] else [ks[0].Key()] + Keys(ks[1..])
  }

  /** The end of a stream: Enter or Ctrl-C and anything behind it, or an escape that was cut off, or
      nothing. */
  predicate Final(tail: seq<byte>) {
    || tail == [] || tail[0] == 0x0D || tail[0] == 0x0A || tail[0] == 0x03
    || (tail[0] == 0x1B && (|tail| == 1 || (|tail| == 2 && tail[1] == 0x5B)))
  }

  /** Downs less ups. */
  function Arrows(ks: seq<Stroke>): (n: int) {
    if ks == [] then 0 else (if ks[0].ArrowDown? then 1 else if ks[0].ArrowUp? then -1 else 0) + Arrows(ks[1..])
  }

  function FirstStroke(input: seq<byte>): (k: Stroke)
    requires !Final(input)
    ensures k.Ok() && k.Bytes() <= input && |k.Bytes()| >= 1
  {
    if input[0] != 0x1B then Letter(input[0])
    else if input[1] != 0x5B then Alt(input[1])
    else if input[2] == 0x41 then ArrowUp
    else if input[2] == 0x42 then ArrowDown
    else Other(input[2])
  }

  /** The strokes of a stream, and its end. */
  function Strokes(input: seq<byte>): (r: (seq<Stroke>, seq<byte>))
    ensures StrokesOk(r.0) && Final(r.1) && input == Spelled(r.0) + r.1
    decreases |input|
  {
    if Final(input) then ([], input)
    else
      var k := FirstStroke(input);
      var (ks, tail) := Strokes(input[|k.Bytes()|..]);
      SpelledFirst([k] + ks, tail);
      ([k] + ks, tail)
  }

  lemma DecodeStroke(k: Stroke, rest: seq<byte>, ending: Ending)
    requires k.Ok()
    ensures Decode(k.Bytes() + rest, ending) == (Pressed(k.Key()), |k.Bytes()|)
  {
  }

  lemma SpelledFirst(ks: seq<Stroke>, tail: seq<byte>)
    requires ks != []
    ensures Spelled(ks) + tail == ks[0].Bytes() + (Spelled(ks[1..]) + tail)
    ensures ([ks[0]] + ks[1..])[1..] == ks[1..]
  {
  }

  /** However a stream is spelled, its keys are those of the strokes. */
  lemma {:induction false} SpelledMoves(ks: seq<Stroke>, tail: seq<byte>, ending: Ending)
    requires StrokesOk(ks) && Final(tail)
    ensures Moves(Spelled(ks) + tail, ending) == Keys(ks)
    decreases |ks|
  {
    if ks == [] {
      assert Spelled(ks) + tail == tail;
    } else {
      var rest := Spelled(ks[1..]) + tail;
      SpelledFirst(ks, tail);
      DecodeStroke(ks[0], rest, ending);
      assert (ks[0].Bytes() + rest)[|ks[0].Bytes()|..] == rest;
      SpelledMoves(ks[1..], tail, ending);
    }
  }

  lemma {:induction false} KeysNet(ks: seq<Stroke>)
    ensures Net(Keys(ks)) == Arrows(ks)
  {
    if ks != [] {
      KeysNet(ks[1..]);
    }
  }

  lemma FirstOfStroke(k: Stroke, rest: seq<byte>)
    requires k.Ok()
    ensures var input := k.Bytes() + rest;
            !Final(input) && FirstStroke(input) == k && input[|k.Bytes()|..] == rest
  {
  }

  /** A stream is spelled in one way only. */
  lemma {:induction false} SpelledOnce(ks: seq<Stroke>, tail: seq<byte>)
    requires StrokesOk(ks) && Final(tail)
    ensures Strokes(Spelled(ks) + tail) == (ks, tail)
    decreases |ks|
  {
    var input := Spelled(ks) + tail;
    if ks == [] {
      assert input == tail;
    } else {
      SpelledFirst(ks, tail);
      FirstOfStroke(ks[0], Spelled(ks[1..]) + tail);
      SpelledOnce(ks[1..], tail);
      assert [ks[0]] + ks[1..] == ks;
    }
  }
}
