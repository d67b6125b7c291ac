/**
 The keys of the read-cursor file: one string per identity and target, built from query-escaped
 components joined by colons. Distinct identities and targets never share a key.
 */
module CursorKeys {
  import opened Utf8

  const COLON: byte := 0x3A
  const PERCENT: byte := 0x25
  const PLUS: byte := 0x2B
  const SPACE: byte := 0x20

  // ---------------------------------------------------------------------------------------
  // Query escaping
  // ---------------------------------------------------------------------------------------

  /** Bytes that stand for themselves (section 2.3 of RFC 3986). */
  predicate Unreserved(b: byte) {
    || 0x61 <= b <= 0x7A || 0x41 <= b <= 0x5A || 0x30 <= b <= 0x39
    || b == 0x2D || b == 0x5F || b == 0x2E || b == 0x7E
  }

  function HexDigit(n: int): (b: byte)
    requires 0 <= n < 16
  {
    if n < 10 then 0x30 + n else 0x41 + (n - 10)
  }

  function HexValue(b: byte): (n: int) {
    if 0x30 <= b <= 0x39 then b - 0x30 else if 0x41 <= b <= 0x46 then b - 0x41 + 10 else 0
  }

  function EscapeByte(b: byte): (s: seq<byte>) {
    if b == SPACE then [PLUS]
    else if Unreserved(b) then [b]
    else [PERCENT, HexDigit(b / 16), HexDigit(b % 16)]
  }

  function QueryEscape(s: seq<byte>): (r: seq<byte>) {
    if s == [] then [] else EscapeByte(s[0]) + QueryEscape(s[1..])
  }

  /** The inverse: plus signs back to spaces, percent triplets back to bytes (section 2.1 of
      RFC 3986). */
  function QueryUnescape(s: seq<byte>): (r: seq<byte>) {
    if s == [] then []
    else if s[0] == PLUS then [SPACE] + QueryUnescape(s[1..])
    else if s[0] == PERCENT && |s| >= 3 then
      [((16 * HexValue(s[1]) + HexValue(s[2])) % 256) as byte] + QueryUnescape(s[3..])
    else [s[0]] + QueryUnescape(s[1..])
  }

  lemma {:induction false} UnescapeEscape(s: seq<byte>)
    ensures QueryUnescape(QueryEscape(s)) == s
  {
    if s != [] {
      var b, rest := s[0], QueryEscape(s[1..]);
      UnescapeEscape(s[1..]);
      var e := EscapeByte(b) + rest;
      assert QueryEscape(s) == e;
      if b == SPACE || Unreserved(b) {
        assert e[1..] == rest;
      } else {
        assert e[3..] == rest;
        assert 16 * (b / 16) + b % 16 == b;
        assert HexValue(HexDigit(b / 16)) == b / 16 && HexValue(HexDigit(b % 16)) == b % 16;
      }
    }
  }

  /** An escaped component holds no colon, whatever it escapes. */
  lemma {:induction false} NoColon(s: seq<byte>)
    ensures COLON !in QueryEscape(s)
  {
    if s != [] {
      NoColon(s[1..]);
    }
  }

  // ---------------------------------------------------------------------------------------
  // Keys
  // ---------------------------------------------------------------------------------------

  datatype Kind = Room | Thread | Dm

  const AGENT: seq<byte> := [0x61, 0x67, 0x65, 0x6E, 0x74]
  const OPERATOR: seq<byte> := [0x6F, 0x70, 0x65, 0x72, 0x61, 0x74, 0x6F, 0x72]

  function KindName(k: Kind): (s: seq<byte>) {
    match k
    case Room => [0x72, 0x6F, 0x6F, 0x6D]
    case Thread => [0x74, 0x68, 0x72, 0x65, 0x61, 0x64]
    case Dm => [0x64, 0x6D]
  }

  /** Who reads: an agent by network and member, or the operator by network alone. */
  datatype Identity = Agent(network: seq<byte>, member: seq<byte>) | Operator(network: seq<byte>)

  datatype Target = Target(kind: Kind, id: seq<byte>)

  function KeyPrefix(i: Identity): (s: seq<byte>) {
    match i
    case Agent(n, m) => AGENT + [COLON] + QueryEscape(n) + [COLON] + QueryEscape(m)
    case Operator(n) => OPERATOR + [COLON] + QueryEscape(n)
  }

  function ReadCursorKey(i: Identity, t: Target): (s: seq<byte>) {
    KeyPrefix(i) + [COLON] + KindName(t.kind) + [COLON] + QueryEscape(t.id)
  }

  /** The components between colons. */
  function Split(s: seq<byte>): (ps: seq<seq<byte>>)
    ensures ps != []
  {
    if s == [] then [[]]
    else
      var ps := Split(s[1..]);
      if s[0] == COLON then [[]] + ps else [[s[0]] + ps[0]] + ps[1..]
  }

  lemma {:induction false} SplitWord(x: seq<byte>)
    requires COLON !in x
    ensures Split(x) == [x]
  {
    if x != [] {
      SplitWord(x[1..]);
      assert [x[0]] + x[1..] == x;
    }
  }

  lemma {:induction false} SplitCons(x: seq<byte>, rest: seq<byte>)
    requires COLON !in x
    ensures Split(x + [COLON] + rest) == [x] + Split(rest)
  {
    var s := x + [COLON] + rest;
    if x == [] {
      assert s[1..] == rest;
    } else {
      assert s[1..] == x[1..] + [COLON] + rest;
      SplitCons(x[1..], rest);
      assert [x[0]] + x[1..] == x;
    }
  }

  /** What a key decodes to. */
  function Components(i: Identity, t: Target): (ps: seq<seq<byte>>) {
    (match i
     case Agent(n, m) => [AGENT, QueryEscape(n), QueryEscape(m)]
     case Operator(n) => [OPERATOR, QueryEscape(n)])
    + [KindName(t.kind), QueryEscape(t.id)]
  }

  predicate Word(x: seq<byte>) {
    COLON !in x
  }

  lemma SplitThree(a: seq<byte>, b: seq<byte>, c: seq<byte>)
    requires Word(a) && Word(b) && Word(c)
    ensures Split(a + [COLON] + (b + [COLON] + c)) == [a, b, c]
  {
    SplitWord(c);
    SplitCons(b, c);
    SplitCons(a, b + [COLON] + c);
  }

  lemma Regroup(a: seq<byte>, b: seq<byte>, c: seq<byte>, d: seq<byte>)
    ensures a + [COLON] + b + [COLON] + c + [COLON] + d == a + [COLON] + (b + [COLON] + (c + [COLON] + d))
  {
  }

  lemma SplitFour(a: seq<byte>, b: seq<byte>, c: seq<byte>, d: seq<byte>)
    requires Word(a) && Word(b) && Word(c) && Word(d)
    ensures Split(a + [COLON] + b + [COLON] + c + [COLON] + d) == [a, b, c, d]
  {
    SplitThree(b, c, d);
    SplitCons(a, b + [COLON] + (c + [COLON] + d));
    Regroup(a, b, c, d);
  }

  lemma RegroupFive(a: seq<byte>, b: seq<byte>, c: seq<byte>, d: seq<byte>, e: seq<byte>)
    ensures a + [COLON] + b + [COLON] + c + [COLON] + d + [COLON] + e
         == a + [COLON] + (b + [COLON] + c + [COLON] + d + [COLON] + e)
  {
  }

  lemma SplitFive(a: seq<byte>, b: seq<byte>, c: seq<byte>, d: seq<byte>, e: seq<byte>)
    requires Word(a) && Word(b) && Word(c) && Word(d) && Word(e)
    ensures Split(a + [COLON] + b + [COLON] + c + [COLON] + d + [COLON] + e) == [a, b, c, d, e]
  {
    SplitFour(b, c, d, e);
    SplitCons(a, b + [COLON] + c + [COLON] + d + [COLON] + e);
    RegroupFive(a, b, c, d, e);
  }

  /** Splitting a key at its colons gives exactly the escaped components. */
  lemma SplitOfKey(i: Identity, t: Target)
    ensures Split(ReadCursorKey(i, t)) == Components(i, t)
  {
    NoColon(t.id);
    NoColon(i.network);
    match i
    case Agent(n, m) =>
      NoColon(m);
      SplitFive(AGENT, QueryEscape(n), QueryEscape(m), KindName(t.kind), QueryEscape(t.id));
    case Operator(n) =>
      SplitFour(OPERATOR, QueryEscape(n), KindName(t.kind), QueryEscape(t.id));
  }

  lemma EscapeInjective(a: seq<byte>, b: seq<byte>)
    requires QueryEscape(a) == QueryEscape(b)
    ensures a == b
  {
    UnescapeEscape(a);
    UnescapeEscape(b);
  }

  lemma ComponentsInjective(i: Identity, t: Target, j: Identity, u: Target)
    requires Components(i, t) == Components(j, u)
    ensures i == j && t == u
  {
    var ps, qs := Components(i, t), Components(j, u);
    assert ps[0] == qs[0];
    assert AGENT[0] != OPERATOR[0];
    assert ps[|ps| - 1] == qs[|qs| - 1] && ps[|ps| - 2] == qs[|qs| - 2];
    EscapeInjective(t.id, u.id);
    assert KindName(t.kind)[0] == KindName(u.kind)[0];
    assert ps[1] == qs[1];
    EscapeInjective(i.network, j.network);
    if i.Agent? {
      assert ps[2] == qs[2];
      EscapeInjective(i.member, j.member);
    }
  }

  /** Keys are injective: no two pairs of identity and target share one, agent against operator
      included, whatever bytes their ids hold. */
  lemma KeyInjective(i: Identity, t: Target, j: Identity, u: Target)
    ensures ReadCursorKey(i, t) == ReadCursorKey(j, u) <==> i == j && t == u
  {
    if ReadCursorKey(i, t) == ReadCursorKey(j, u) {
      SplitOfKey(i, t);
      SplitOfKey(j, u);
      ComponentsInjective(i, t, j, u);
    }
  }

  /** A key in letters: "agent:n:m:room:a+b%3A" for room "a b:". */
  lemma AgentKeyAtWork(n: byte, m: byte)
    requires Unreserved(n) && Unreserved(m)
    ensures QueryEscape([0x61, 0x20, 0x62, 0x3A]) == [0x61, 0x2B, 0x62, 0x25, 0x33, 0x41]
    ensures ReadCursorKey(Agent([n], [m]), Target(Room, [0x61, 0x20, 0x62, 0x3A]))
         == [0x61, 0x67, 0x65, 0x6E, 0x74] + [0x3A] + [n] + [0x3A] + [m] + [0x3A] + [0x72, 0x6F, 0x6F, 0x6D] + [0x3A]
            + QueryEscape([0x61, 0x20, 0x62, 0x3A])
  {
    EscapeOne(n);
    EscapeOne(m);
    EscapeFour(0x61, 0x20, 0x62, 0x3A);
  }

  /** And an operator's: "operator:n:dm:%FF". */
  lemma OperatorKeyAtWork(n: byte)
    requires Unreserved(n)
    ensures QueryEscape([0xFF]) == [0x25, 0x46, 0x46]
    ensures ReadCursorKey(Operator([n]), Target(Dm, [0xFF]))
         == [0x6F, 0x70, 0x65, 0x72, 0x61, 0x74, 0x6F, 0x72] + [0x3A] + [n] + [0x3A] + [0x64, 0x6D] + [0x3A]
            + QueryEscape([0xFF])
  {
    EscapeOne(n);
    EscapeOne(0xFF);
  }

  lemma EscapeOne(b: byte)
    ensures QueryEscape([b]) == EscapeByte(b)
  {
    assert [b][1..] == [] && QueryEscape([]) == [];
  }

  lemma EscapeFour(a: byte, b: byte, c: byte, d: byte)
    ensures QueryEscape([a, b, c, d]) == EscapeByte(a) + (EscapeByte(b) + (EscapeByte(c) + EscapeByte(d)))
  {
    EscapeOne(d);
    assert [c, d][1..] == [d] && [b, c, d][1..] == [c, d] && [a, b, c, d][1..] == [b, c, d];
    assert QueryEscape([c, d]) == EscapeByte(c) + EscapeByte(d);
    assert QueryEscape([b, c, d]) == EscapeByte(b) + QueryEscape([c, d]);
  }
}
