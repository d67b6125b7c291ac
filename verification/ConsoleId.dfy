/**
 Choosing an id for the console's token: the first of console, console-2, console-3, ... that no
 configured token carries.
 */
module ConsoleId {

  import Decimal

  const CONSOLE: string := "console"

  function Numeral(n: nat): (s: string) {
    var ds := Decimal.Digits(n);
    seq(|ds|, i requires 0 <= i < |ds| => '0' + ds[i] as char)
  }

  /** The `n`th id in the order they are tried, from 1. */
  function Candidate(n: nat): (id: string) {
    if n <= 1 then CONSOLE else CONSOLE + "-" + Numeral(n)
  }

  lemma NumeralInjective(m: nat, n: nat)
    requires Numeral(m) == Numeral(n)
    ensures m == n
  {
    var a, b := Decimal.Digits(m), Decimal.Digits(n);
    assert |Numeral(m)| == |a| && |Numeral(n)| == |b|;
    forall i | 0 <= i < |a| ensures a[i] == b[i] {
      assert Numeral(m)[i] == '0' + a[i] as char && Numeral(n)[i] == '0' + b[i] as char;
    }
    Decimal.DigitsInjective(m, n);
  }

  lemma CandidateInjective(m: nat, n: nat)
    requires 1 <= m && 1 <= n && Candidate(m) == Candidate(n)
    ensures m == n
  {
    if m > 1 && n > 1 {
      var k := |CONSOLE + "-"|;
      assert Candidate(m)[k..] == Numeral(m) && Candidate(n)[k..] == Numeral(n);
      NumeralInjective(m, n);
    } else {
      assert m > 1 ==> |Candidate(m)| > |CONSOLE|;
      assert n > 1 ==> |Candidate(n)| > |CONSOLE|;
    }
  }

  /** The ids that are tried: "console", "console-2", "console-3", and so on; what stands behind the dash
      of any but the first reads back as its number. */
  lemma CandidateNames(n: nat)
    ensures Candidate(1) == "console" && Candidate(2) == "console-2" && Candidate(3) == "console-3"
    ensures n >= 2 ==> "console-" <= Candidate(n) && AllDigits(Candidate(n)[8..]) && ReadBack(Candidate(n)[8..]) == n
  {
    assert Numeral(2) == "2" && Numeral(3) == "3";
    if n >= 2 {
      assert Candidate(n) == "console-" + Numeral(n);
      assert Candidate(n)[8..] == Numeral(n);
      NumeralReadsBack(n);
    }
  }

  predicate AllDigits(s: string) {
    forall i | 0 <= i < |s| :: '0' <= s[i] <= '9'
  }

  /** The number a numeral denotes. */
  function ReadBack(s: string): (n: nat)
    requires AllDigits(s)
  {
    Decimal.Value(seq(|s|, i requires 0 <= i < |s| => (s[i] - '0') as int))
  }

  lemma NumeralReadsBack(n: nat)
    ensures AllDigits(Numeral(n)) && ReadBack(Numeral(n)) == n
  {
    var s, ds := Numeral(n), Decimal.Digits(n);
    assert seq(|s|, i requires 0 <= i < |s| => (s[i] - '0') as int) == ds;
    Decimal.ValueOfDigits(n);
  }

  /** Pigeonhole: `n` candidates that are all in use are `n` different ids. */
  lemma {:induction false} CandidatesTakeRoom(n: nat, used: set<string>)
    requires forall k | 1 <= k <= n :: Candidate(k) in used
    ensures n <= |used|
    decreases n
  {
    if n > 0 {
      var rest := used - {Candidate(n)};
      forall k | 1 <= k <= n - 1 ensures Candidate(k) in rest {
        if Candidate(k) == Candidate(n) {
          CandidateInjective(k, n);
        }
      }
      CandidatesTakeRoom(n - 1, rest);
    }
  }

  /** `nextConsoleTokenID` on the ids of the configured tokens. The search is unbounded, and ends by
      candidate number `|ids| + 1` at the latest. */
  method NextConsoleTokenID(ids: seq<string>) returns (id: string)
    ensures id !in ids
    ensures exists k :: 1 <= k <= |ids| + 1 && id == Candidate(k) && forall j | 1 <= j < k :: Candidate(j) in ids
  {
    var used: set<string> := {};
    for i := 0 to |ids|
      invariant forall x :: x in used <==> x in ids[..i]
      invariant |used| <= i
    {
      assert ids[..i + 1] == ids[..i] + [ids[i]];
      used := used + {ids[i]};
    }
    assert ids[..|ids|] == ids;
    if CONSOLE !in used {
      assert CONSOLE == Candidate(1);
      return CONSOLE;
    }
    var suffix := 2;
    while true
      invariant 2 <= suffix && forall k | 1 <= k < suffix :: Candidate(k) in used
      decreases |used| + 1 - suffix
    {
      CandidatesTakeRoom(suffix - 1, used);
      var candidate := CONSOLE + "-" + Numeral(suffix);
      assert candidate == Candidate(suffix);
      if candidate !in used {
        return candidate;
      }
      suffix := suffix + 1;
      CandidatesTakeRoom(suffix - 1, used);
    }
  }
}
