/** Station ids (simulator/model.go) and Redis keys (processor/redis_state.go) never collide. */
module Naming {
  import opened Events

  function DigitChar(d: nat): char
    requires d < 10
  {
    ['0', '1', '2', '3', '4', '5', '6', '7', '8', '9'][d]
  }

  function DigitValue(c: char): nat {
    if '0' <= c <= '9' then c as nat - '0' as nat else 0
  }

  /** Decimal digits without leading zeros. */
  function Digits(n: nat): string {
    if n < 10 then [DigitChar(n)] else Digits(n / 10) + [DigitChar(n % 10)]
  }

  function Itoa(i: int): string {
    if i < 0 then "-" + Digits(-i) else Digits(i)
  }

  /** The number a digit string denotes, leading zeros allowed. */
  function Val(s: string): nat {
    if s == "" then 0 else 10 * Val(s[..|s| - 1]) + DigitValue(s[|s| - 1])
  }

  predicate IsDigit(c: char) {
    '0' <= c <= '9'
  }

  lemma {:induction false} DigitsDenote(n: nat)
    ensures Val(Digits(n)) == n
    ensures Digits(n) != "" && forall c | c in Digits(n) :: IsDigit(c)
  {
    OneDigit(n % 10);
    if n < 10 {
      assert Digits(n)[..0] == "";
    } else {
      DigitsDenote(n / 10);
      ValSnoc(Digits(n / 10), DigitChar(n % 10));
    }
  }

  lemma {:induction false} OneDigit(d: nat)
    requires d < 10
    ensures DigitValue(DigitChar(d)) == d && IsDigit(DigitChar(d))
  {
  }

  lemma {:induction false} ValSnoc(s: string, c: char)
    ensures Val(s + [c]) == 10 * Val(s) + DigitValue(c)
  {
  }

  lemma {:induction false} ItoaInjective(i: int, j: int)
    requires Itoa(i) == Itoa(j)
    ensures i == j
  {
    var a, b := if i < 0 then -i else i, if j < 0 then -j else j;
    DigitsDenote(a);
    DigitsDenote(b);
    assert Digits(a)[0] in Digits(a) && Digits(b)[0] in Digits(b);
    assert i < 0 <==> Itoa(i)[0] == '-';
    assert j < 0 <==> Itoa(j)[0] == '-';
    if i < 0 {
      assert Itoa(i)[1..] == Digits(a) && Itoa(j)[1..] == Digits(b);
    }
  }

  lemma {:induction false} ItoaHasNoColon(i: int)
    ensures ':' !in Itoa(i)
  {
    DigitsDenote(if i < 0 then -i else i);
  }

  /** A separator that the tails do not contain splits the text in one way only. */
  lemma {:induction false} SplitIsUnique(a: string, x: string, b: string, y: string, sep: char)
    requires a + [sep] + x == b + [sep] + y
    requires sep !in x && sep !in y
    ensures a == b && x == y
  {
    var s := a + [sep] + x;
    LastSeparator(s, a, x, sep);
    LastSeparator(s, b, y, sep);
    assert s[|a|] == sep && s[|b|] == sep;
    assert a == s[..|a|] && b == s[..|b|];
    assert x == s[|a| + 1..] && y == s[|b| + 1..];
  }

  lemma {:induction false} LastSeparator(s: string, a: string, x: string, sep: char)
    requires s == a + [sep] + x && sep !in x
    ensures forall k | |a| < k < |s| :: s[k] != sep
  {
  }

  function StateKey(stationId: string, connectorId: int): string {
    "station:" + stationId + ":" + Itoa(connectorId)
  }

  function StateKeyForEvent(e: Event): string {
    if e.eventType.Heartbeat? then "station_liveness:" + e.stationId else StateKey(e.stationId, e.connectorId)
  }

  /** A key names one connector, or one station's liveness, and never both. */
  lemma {:induction false} KeysNeverCollide(e: Event, f: Event)
    ensures StateKeyForEvent(e) == StateKeyForEvent(f) <==>
              && e.eventType.Heartbeat? == f.eventType.Heartbeat?
              && e.stationId == f.stationId
              && (e.eventType.Heartbeat? || e.connectorId == f.connectorId)
  {
    if StateKeyForEvent(e) == StateKeyForEvent(f) {
      var k := StateKeyForEvent(e);
      assert k[7] == (if e.eventType.Heartbeat? then '_' else ':');
      assert k[7] == (if f.eventType.Heartbeat? then '_' else ':');
      if e.eventType.Heartbeat? {
        assert k[17..] == e.stationId && k[17..] == f.stationId;
      } else {
        ItoaHasNoColon(e.connectorId);
        ItoaHasNoColon(f.connectorId);
        SplitIsUnique("station:" + e.stationId, Itoa(e.connectorId), "station:" + f.stationId, Itoa(f.connectorId),
            ':');
        assert ("station:" + e.stationId)[8..] == e.stationId && ("station:" + f.stationId)[8..] == f.stationId;
        ItoaInjective(e.connectorId, f.connectorId);
      }
    }
  }

  // ---------------------------------------------------------------------------------------
  // Station ids
  // ---------------------------------------------------------------------------------------

  function Zeros(n: nat): string {
    if n == 0 then "" else Zeros(n - 1) + "0"
  }

  /** %04d: at least four digits, never truncated. */
  function Pad4(n: nat): string {
    var d := Digits(n);
    if |d| < 4 then Zeros(4 - |d|) + d else d
  }

  function StationId(code: string, n: nat): string {
    "TR-" + code + "-" + Pad4(n)
  }

  lemma {:induction false} ZerosDenoteNothing(n: nat, d: string)
    requires forall c | c in d :: IsDigit(c)
    ensures Val(Zeros(n) + d) == Val(d)
    ensures forall c | c in Zeros(n) + d :: IsDigit(c)
  {
    if n == 0 {
      assert Zeros(n) + d == d;
    } else {
      assert Zeros(n) + d == Zeros(n - 1) + ("0" + d);
      ZerosDenoteNothing(n - 1, "0" + d);
      LeadingZero(d);
    }
  }

  lemma {:induction false} LeadingZero(d: string)
    ensures Val("0" + d) == Val(d)
  {
    if d == "" {
      assert ("0" + d)[..0] == "";
    } else {
      assert ("0" + d)[..|d|] == "0" + d[..|d| - 1];
      LeadingZero(d[..|d| - 1]);
    }
  }

  lemma {:induction false} Pad4Denotes(n: nat)
    ensures Val(Pad4(n)) == n
    ensures forall c | c in Pad4(n) :: IsDigit(c)
  {
    DigitsDenote(n);
    if |Digits(n)| < 4 {
      ZerosDenoteNothing(4 - |Digits(n)|, Digits(n));
    }
  }

  /** Four digits at least, and no more than the number needs. */
  lemma {:induction false} Pad4IsShort(n: nat)
    ensures |Pad4(n)| == if |Digits(n)| < 4 then 4 else |Digits(n)|
  {
    if |Digits(n)| < 4 {
      ZerosAre(4 - |Digits(n)|);
    }
  }

  lemma {:induction false} ZerosAre(k: nat)
    ensures |Zeros(k)| == k
  {
    if k > 0 {
      ZerosAre(k - 1);
    }
  }

  /** Whatever characters the city codes contain, an id determines its code and its number. */
  lemma {:induction false} StationIdInjective(c: string, m: nat, d: string, n: nat)
    requires StationId(c, m) == StationId(d, n)
    ensures c == d && m == n
  {
    Pad4Denotes(m);
    Pad4Denotes(n);
    SplitIsUnique("TR-" + c, Pad4(m), "TR-" + d, Pad4(n), '-');
    assert ("TR-" + c)[3..] == c && ("TR-" + d)[3..] == d;
  }
}
