/**
  The per-connector current state in Redis (processor/redis_state.go): a hash guarded by the
  timestamp of the last accepted event, of which each event writes only the fields it knows.
  The time-to-live of the hash is not modelled.
 */
module CurrentState {
  import opened Events

  datatype Field = StatusField | Power | Soc | SessionField

  datatype Value = Text(text: string) | Number(number: real) | Percent(percent: int) | State(status: Status)

  /** A hash; one that does not exist has no last_seen and no fields. */
  datatype Hash = Hash(lastSeen: Option<int>, fields: map<Field, Value>)

  const NO_HASH := Hash(None, map[])

  /** A decoded event with the event time that the compare-and-set uses, in milliseconds. */
  datatype StateEvent = StateEvent(e: Event, ts: int)

  function DeriveStatus(e: Event): Status {
    if e.eventType.StatusChange? then e.status else NoStatus
  }

  /** The field/value arguments after the timestamp and the time-to-live, in order. */
  function StateArgs(e: Event): seq<(Field, Value)> {
    (if DeriveStatus(e) != NoStatus then [(StatusField, State(DeriveStatus(e)))] else [])
    + (if e.meter.Some?
       then [(Power, Number(e.meter.value.powerKw)), (Soc, Percent(e.meter.value.socPercent))] else [])
    + (match e.eventType
       case SessionStart => if e.sessionId != "" then [(SessionField, Text(e.sessionId))] else []
       case MeterUpdate => if e.sessionId != "" then [(SessionField, Text(e.sessionId))] else []
       case SessionStop => [(SessionField, Text("")), (Power, Number(0.0))]
       case _ => [])
  }

  /** HSET applies its pairs from left to right. */
  function Hset(fields: map<Field, Value>, pairs: seq<(Field, Value)>): map<Field, Value> {
    if pairs == [] then fields
    else Hset(fields, pairs[..|pairs| - 1])[pairs[|pairs| - 1].0 := pairs[|pairs| - 1].1]
  }

  /** The script refuses an event strictly older than the stored one. */
  predicate Accepts(last: Option<int>, ts: int) {
    last.None? || last.value <= ts
  }

  function Cas(h: Hash, x: StateEvent): Hash {
    if Accepts(h.lastSeen, x.ts) then Hash(Some(x.ts), Hset(h.fields, StateArgs(x.e))) else h
  }

  function CasAll(h: Hash, xs: seq<StateEvent>): Hash {
    if xs == [] then h else Cas(CasAll(h, xs[..|xs| - 1]), xs[|xs| - 1])
  }

  /** What one event writes, independently of what was there. */
  function Writes(e: Event): map<Field, Value> {
    Hset(map[], StateArgs(e))
  }

  lemma {:induction false} HsetIsOverride(fields: map<Field, Value>, pairs: seq<(Field, Value)>)
    ensures Hset(fields, pairs) == fields + Hset(map[], pairs)
  {
    if pairs != [] {
      HsetIsOverride(fields, pairs[..|pairs| - 1]);
    }
  }

  /** The fields an event writes; a SESSION_STOP ends with power 0 whatever its meter says. */
  predicate WritesAsTold(e: Event, m: map<Field, Value>) {
    && (StatusField in m <==> e.eventType.StatusChange? && e.status != NoStatus)
    && (StatusField in m ==> m[StatusField] == State(e.status))
    && (SessionField in m <==>
          e.eventType.SessionStop? || ((e.eventType.SessionStart? || e.eventType.MeterUpdate?) && e.sessionId != ""))
    && (SessionField in m ==> m[SessionField] == Text(if e.eventType.SessionStop? then "" else e.sessionId))
    && (Power in m <==> e.meter.Some? || e.eventType.SessionStop?)
    && (Power in m ==> m[Power] == Number(if e.eventType.SessionStop? then 0.0 else e.meter.value.powerKw))
    && (Soc in m <==> e.meter.Some?)
    && (Soc in m ==> m[Soc] == Percent(e.meter.value.socPercent))
  }

  lemma {:induction false} WritesOf(e: Event)
    ensures WritesAsTold(e, Writes(e))
  {
    var a, b, c := ArgsInParts(e);
    HsetConcat(map[], a + b, c);
    HsetConcat(map[], a, b);
    PartsInTurn(a, b, c);
    PartsTell(e, a, b, c);
  }

  /** The status, meter and session arguments of an event. */
  predicate Parts(e: Event, a: seq<(Field, Value)>, b: seq<(Field, Value)>, c: seq<(Field, Value)>) {
    && a == (if e.eventType.StatusChange? && e.status != NoStatus then [(StatusField, State(e.status))] else [])
    && b == (if e.meter.Some?
             then [(Power, Number(e.meter.value.powerKw)), (Soc, Percent(e.meter.value.socPercent))] else [])
    && c == (if e.eventType.SessionStop? then [(SessionField, Text("")), (Power, Number(0.0))]
             else if (e.eventType.SessionStart? || e.eventType.MeterUpdate?) && e.sessionId != ""
             then [(SessionField, Text(e.sessionId))] else [])
  }

  lemma {:induction false} PartsTell(e: Event, a: seq<(Field, Value)>, b: seq<(Field, Value)>, c: seq<(Field, Value)>)
    requires Parts(e, a, b, c)
    ensures WritesAsTold(e, Over(Over(Over(map[], a), b), c))
  {
  }

  /** At most two pairs, written from left to right. */
  function Over(m: map<Field, Value>, pairs: seq<(Field, Value)>): map<Field, Value> {
    if |pairs| == 1 then m[pairs[0].0 := pairs[0].1]
    else if |pairs| == 2 then m[pairs[0].0 := pairs[0].1][pairs[1].0 := pairs[1].1]
    else m
  }

  lemma {:induction false} PartsInTurn(a: seq<(Field, Value)>, b: seq<(Field, Value)>, c: seq<(Field, Value)>)
    requires |a| <= 2 && |b| <= 2 && |c| <= 2
    ensures Hset(Hset(Hset(map[], a), b), c) == Over(Over(Over(map[], a), b), c)
  {
    HsetUpToTwo(map[], a);
    HsetUpToTwo(Hset(map[], a), b);
    HsetUpToTwo(Hset(Hset(map[], a), b), c);
  }

  lemma {:induction false} ArgsInParts(
    e: Event) returns (a: seq<(Field, Value)>, b: seq<(Field, Value)>, c: seq<(Field, Value)>)
    ensures Parts(e, a, b, c) && StateArgs(e) == a + b + c
  {
    a := if DeriveStatus(e) != NoStatus then [(StatusField, State(DeriveStatus(e)))] else [];
    b := if e.meter.Some?
         then [(Power, Number(e.meter.value.powerKw)), (Soc, Percent(e.meter.value.socPercent))] else [];
    c := match e.eventType
         case SessionStart => if e.sessionId != "" then [(SessionField, Text(e.sessionId))] else []
         case MeterUpdate => if e.sessionId != "" then [(SessionField, Text(e.sessionId))] else []
         case SessionStop => [(SessionField, Text("")), (Power, Number(0.0))]
         case _ => [];
  }

  lemma {:induction false} HsetUpToTwo(m: map<Field, Value>, pairs: seq<(Field, Value)>)
    requires |pairs| <= 2
    ensures Hset(m, pairs) == Over(m, pairs)
  {
    if |pairs| == 2 {
      assert pairs[..1][..0] == [];
      assert Hset(m, pairs[..1]) == m[pairs[0].0 := pairs[0].1];
    }
  }

  lemma {:induction false} HsetConcat(m: map<Field, Value>, a: seq<(Field, Value)>, b: seq<(Field, Value)>)
    ensures Hset(m, a + b) == Hset(Hset(m, a), b)
  {
    if b == [] {
      assert a + b == a;
    } else {
      assert (a + b)[..|a + b| - 1] == a + b[..|b| - 1];
      HsetConcat(m, a, b[..|b| - 1]);
    }
  }

  // ---------------------------------------------------------------------------------------
  // A history seen as (last timestamp, accumulated overrides)
  // ---------------------------------------------------------------------------------------

  function Later(last: Option<int>, ts: int): Option<int> {
    if Accepts(last, ts) then Some(ts) else last
  }

  function LastOf(last: Option<int>, xs: seq<StateEvent>): Option<int> {
    if xs == [] then last else Later(LastOf(last, xs[..|xs| - 1]), xs[|xs| - 1].ts)
  }

  /** Overrides made by the accepted events; depends on the start only through `last`. */
  function Delta(last: Option<int>, xs: seq<StateEvent>): map<Field, Value> {
    if xs == [] then map[]
    else
      var n := |xs| - 1;
      if Accepts(LastOf(last, xs[..n]), xs[n].ts)
      then Delta(last, xs[..n]) + Writes(xs[n].e) else Delta(last, xs[..n])
  }

  lemma {:induction false} CasAllIsDelta(h: Hash, xs: seq<StateEvent>)
    ensures CasAll(h, xs) == Hash(LastOf(h.lastSeen, xs), h.fields + Delta(h.lastSeen, xs))
  {
    if xs == [] {
      assert h.fields + map[] == h.fields;
    } else {
      var n := |xs| - 1;
      CasAllIsDelta(h, xs[..n]);
      HsetIsOverride(CasAll(h, xs[..n]).fields, StateArgs(xs[n].e));
      var d := Delta(h.lastSeen, xs[..n]);
      assert (h.fields + d) + Writes(xs[n].e) == h.fields + (d + Writes(xs[n].e));
    }
  }

  lemma {:induction false} CasAllConcat(h: Hash, a: seq<StateEvent>, b: seq<StateEvent>)
    ensures CasAll(h, a + b) == CasAll(CasAll(h, a), b)
  {
    if b == [] {
      assert a + b == a;
    } else {
      assert (a + b)[..|a + b| - 1] == a + b[..|b| - 1];
      CasAllConcat(h, a, b[..|b| - 1]);
    }
  }

  predicate AllAtMost(xs: seq<StateEvent>, ts: int) {
    forall i | 0 <= i < |xs| :: xs[i].ts <= ts
  }

  lemma {:induction false} LastIsMaximum(last: Option<int>, xs: seq<StateEvent>)
    ensures forall i | 0 <= i < |xs| :: LastOf(last, xs).Some? && xs[i].ts <= LastOf(last, xs).value
    ensures last.Some? ==> LastOf(last, xs).Some? && last.value <= LastOf(last, xs).value
    ensures LastOf(last, xs) == last || exists i :: 0 <= i < |xs| && LastOf(last, xs) == Some(xs[i].ts)
  {
    if xs != [] {
      var n := |xs| - 1;
      LastIsMaximum(last, xs[..n]);
      forall i | 0 <= i < |xs|
        ensures LastOf(last, xs).Some? && xs[i].ts <= LastOf(last, xs).value
      {
        if i < n {
          assert xs[..n][i] == xs[i];
        }
      }
      if LastOf(last, xs) != last && LastOf(last, xs) == LastOf(last, xs[..n]) {
        var i :| 0 <= i < n && LastOf(last, xs[..n]) == Some(xs[..n][i].ts);
        assert LastOf(last, xs) == Some(xs[i].ts);
      } else if LastOf(last, xs) != last {
        assert LastOf(last, xs) == Some(xs[n].ts);
      }
    }
  }

  lemma {:induction false} OneEvent(h: Hash, x: StateEvent)
    ensures CasAll(h, [x]) == Cas(h, x)
  {
    assert [x][..0] == [];
  }

  lemma {:induction false} TwoEvents(h: Hash, x: StateEvent, y: StateEvent)
    ensures CasAll(h, [x, y]) == Cas(Cas(h, x), y)
  {
    assert [x, y][..1] == [x];
    OneEvent(h, x);
  }

  // ---------------------------------------------------------------------------------------
  // Retrying a batch is harmless
  // ---------------------------------------------------------------------------------------

  predicate Within(small: map<Field, Value>, big: map<Field, Value>) {
    forall f | f in small :: f in big && big[f] == small[f]
  }

  /**
    Starting later, at `top`, only the events at `top` are accepted, and they leave no override
    that the earlier start does not leave as well.
   */
  lemma {:induction false} LateStartAddsNothing(last: Option<int>, top: int, xs: seq<StateEvent>)
    requires Accepts(last, top) && AllAtMost(xs, top)
    ensures LastOf(Some(top), xs) == Some(top)
    ensures Accepts(LastOf(last, xs), top)
    ensures Within(Delta(Some(top), xs), Delta(last, xs))
    ensures Delta(Some(top), xs) == map[] || LastOf(last, xs) == Some(top)
  {
    if xs != [] {
      var n := |xs| - 1;
      LateStartAddsNothing(last, top, xs[..n]);
    }
  }

  /** Applying the same events a second time changes nothing. */
  lemma {:induction false} ReplayIsHarmless(h: Hash, xs: seq<StateEvent>)
    ensures CasAll(CasAll(h, xs), xs) == CasAll(h, xs)
  {
    if xs != [] {
      var h1 := CasAll(h, xs);
      CasAllIsDelta(h, xs);
      CasAllIsDelta(h1, xs);
      LastIsMaximum(h.lastSeen, xs);
      assert xs[0].ts <= h1.lastSeen.value;
      LateStartAddsNothing(h.lastSeen, h1.lastSeen.value, xs);
      assert h1.fields + Delta(h1.lastSeen, xs) == h1.fields;
    } else {
      assert CasAll(h, xs) == h;
    }
  }

  /** Any prefix of a batch followed by the whole batch equals the whole batch once. */
  lemma {:induction false} RetryIsHarmless(h: Hash, xs: seq<StateEvent>, k: nat)
    requires k <= |xs|
    ensures CasAll(CasAll(h, xs[..k]), xs) == CasAll(h, xs)
  {
    var a, b := xs[..k], xs[k..];
    assert xs == a + b;
    CasAllConcat(CasAll(h, a), a, b);
    ReplayIsHarmless(h, a);
    CasAllConcat(h, a, b);
  }

  lemma {:induction false} DeltaKeysGrow(last: Option<int>, xs: seq<StateEvent>, j: nat)
    requires j <= |xs|
    ensures Delta(last, xs[..j]).Keys <= Delta(last, xs).Keys
  {
    if j < |xs| {
      var n := |xs| - 1;
      assert xs[..n][..j] == xs[..j];
      DeltaKeysGrow(last, xs[..n], j);
    } else {
      assert xs[..j] == xs;
    }
  }

  /** The last event at instant `top` that writes `f`. */
  function LastAt(xs: seq<StateEvent>, top: int, f: Field): (r: Option<nat>)
    ensures r.Some? ==> r.value < |xs| && xs[r.value].ts == top && f in Writes(xs[r.value].e)
    ensures forall i | 0 <= i < |xs| && xs[i].ts == top && f in Writes(xs[i].e) :: r.Some? && i <= r.value
  {
    if xs == [] then None
    else
      var n := |xs| - 1;
      if xs[n].ts == top && f in Writes(xs[n].e) then Some(n)
      else
        var r := LastAt(xs[..n], top, f);
        assert forall i | 0 <= i < n :: xs[..n][i] == xs[i];
        r
  }

  /** From a clock that already stands at `top`, the last event at `top` to write a field decides it. */
  lemma {:induction false} TopWritersDecide(xs: seq<StateEvent>, top: int, f: Field)
    requires AllAtMost(xs, top)
    ensures f in Delta(Some(top), xs) <==> LastAt(xs, top, f).Some?
    ensures f in Delta(Some(top), xs) ==> Delta(Some(top), xs)[f] == Writes(xs[LastAt(xs, top, f).value].e)[f]
  {
    if xs != [] {
      var n := |xs| - 1;
      LateStartAddsNothing(Some(top), top, xs[..n]);
      TopWritersDecide(xs[..n], top, f);
    }
  }

  /** Wherever `part` writes a field at the newest instant, its last such value is that of `all`. */
  ghost predicate TiesAgree(part: seq<StateEvent>, all: seq<StateEvent>, last: Option<int>) {
    last.Some? ==>
      forall f | LastAt(part, last.value, f).Some? ::
        && LastAt(all, last.value, f).Some?
        && Writes(part[LastAt(part, last.value, f).value].e)[f] == Writes(all[LastAt(all, last.value, f).value].e)[f]
  }

  lemma {:induction false} TiesAgreeIsWithin(part: seq<StateEvent>, all: seq<StateEvent>, top: int)
    requires AllAtMost(part, top) && AllAtMost(all, top)
    ensures TiesAgree(part, all, Some(top)) <==> Within(Delta(Some(top), part), Delta(Some(top), all))
  {
    forall f
      ensures f in Delta(Some(top), part) <==> LastAt(part, top, f).Some?
      ensures f in Delta(Some(top), all) <==> LastAt(all, top, f).Some?
      ensures LastAt(part, top, f).Some? ==> Delta(Some(top), part)[f] == Writes(part[LastAt(part, top, f).value].e)[f]
      ensures LastAt(all, top, f).Some? ==> Delta(Some(top), all)[f] == Writes(all[LastAt(all, top, f).value].e)[f]
    {
      TopWritersDecide(part, top, f);
      TopWritersDecide(all, top, f);
    }
  }

  /**
    A retry that breaks earlier than the first attempt did is harmless exactly when, field by
    field, the last of the newest events it re-applies writes what the last of all the newest
    events writes.
   */
  lemma {:induction false} ShorterRetryIff(h: Hash, xs: seq<StateEvent>, j: nat)
    requires j <= |xs|
    ensures CasAll(CasAll(h, xs), xs[..j]) == CasAll(h, xs) <==> TiesAgree(xs[..j], xs, LastOf(h.lastSeen, xs))
  {
    if xs != [] {
      LastIsMaximum(h.lastSeen, xs);
      assert xs[0].ts <= LastOf(h.lastSeen, xs).value;
      var top := LastOf(h.lastSeen, xs).value;
      assert AllAtMost(xs[..j], top);
      TiesAgreeIsWithin(xs[..j], xs, top);
      ShorterRetryIsWithin(h, xs, j, top);
    } else {
      assert xs[..j] == xs;
    }
  }

  lemma {:induction false} ShorterRetryIsWithin(h: Hash, xs: seq<StateEvent>, j: nat, top: int)
    requires j <= |xs| && Accepts(h.lastSeen, top) && AllAtMost(xs, top) && LastOf(h.lastSeen, xs) == Some(top)
    ensures CasAll(CasAll(h, xs), xs[..j]) == CasAll(h, xs) <==> Within(Delta(Some(top), xs[..j]), Delta(Some(top), xs))
  {
    var h1 := CasAll(h, xs);
    CasAllIsDelta(h, xs);
    CasAllIsDelta(h1, xs[..j]);
    LateStartAddsNothing(h.lastSeen, top, xs);
    LateStartAddsNothing(h.lastSeen, top, xs[..j]);
    DeltaKeysGrow(Some(top), xs, j);
    var d := Delta(Some(top), xs[..j]);
    assert forall f | f in Delta(Some(top), xs) :: h1.fields[f] == Delta(Some(top), xs)[f];
    assert Within(d, h1.fields) ==> h1.fields + d == h1.fields;
    assert forall f | f in d :: (h1.fields + d)[f] == d[f];
  }

  /**
    It is not always: when a METER_UPDATE and the SESSION_STOP share their timestamp and the
    retry breaks between them, the finished session and its power come back.
   */
  lemma {:induction false} ShorterRetryRevivesSession(x: StateEvent, y: StateEvent)
    requires x.e.eventType.MeterUpdate? && x.e.sessionId != "" && x.e.meter.Some? && x.e.meter.value.powerKw > 0.0
    requires y.e.eventType.SessionStop? && x.ts == y.ts
    ensures Lookup(CasAll(NO_HASH, [x, y]), SessionField) == Some(Text(""))
    ensures Lookup(CasAll(CasAll(NO_HASH, [x, y]), [x]), SessionField) == Some(Text(x.e.sessionId))
    ensures Lookup(CasAll(CasAll(NO_HASH, [x, y]), [x]), Power) == Some(Number(x.e.meter.value.powerKw))
  {
    WritesOf(x.e);
    WritesOf(y.e);
    OneEvent(NO_HASH, x);
    TwoEvents(NO_HASH, x, y);
    var h := Cas(Cas(NO_HASH, x), y);
    OneEvent(h, x);
    AcceptedWrite(NO_HASH, x, SessionField);
    AcceptedWrite(Cas(NO_HASH, x), y, SessionField);
    AcceptedWrite(h, x, SessionField);
    AcceptedWrite(h, x, Power);
  }

  // ---------------------------------------------------------------------------------------
  // Losing events
  // ---------------------------------------------------------------------------------------

  lemma {:induction false} AtMostAfter(h: Hash, xs: seq<StateEvent>, ts: int)
    requires Accepts(h.lastSeen, ts) && AllAtMost(xs, ts)
    ensures Accepts(CasAll(h, xs).lastSeen, ts)
  {
    CasAllIsDelta(h, xs);
    LastIsMaximum(h.lastSeen, xs);
  }

  /** Two hashes with one last_seen take the same decisions and keep agreeing where they agree. */
  lemma {:induction false} SameClockSameFuture(h1: Hash, h2: Hash, xs: seq<StateEvent>)
    requires h1.lastSeen == h2.lastSeen
    ensures CasAll(h1, xs).lastSeen == CasAll(h2, xs).lastSeen
    ensures forall f | f in Delta(h1.lastSeen, xs) ::
              && f in CasAll(h1, xs).fields && f in CasAll(h2, xs).fields
              && CasAll(h1, xs).fields[f] == CasAll(h2, xs).fields[f]
    ensures forall f | f !in Delta(h1.lastSeen, xs) ::
              && (f in CasAll(h1, xs).fields <==> f in h1.fields)
              && (f in CasAll(h2, xs).fields <==> f in h2.fields)
              && (f in h1.fields ==> CasAll(h1, xs).fields[f] == h1.fields[f])
              && (f in h2.fields ==> CasAll(h2, xs).fields[f] == h2.fields[f])
  {
    CasAllIsDelta(h1, xs);
    CasAllIsDelta(h2, xs);
  }

  function Lookup(h: Hash, f: Field): Option<Value> {
    if f in h.fields then Some(h.fields[f]) else None
  }

  /**
    Self-healing, exactly: whatever two histories `before` and `other` dropped, repeated or
    reordered, once an event at least as new as all earlier ones reaches both they agree for ever
    on last_seen and on every later decision, and they agree on a field if and only if it was
    written since, or had agreed already.
   */
  lemma {:induction false} LossHeals(
    h: Hash, before: seq<StateEvent>, other: seq<StateEvent>, x: StateEvent, after: seq<StateEvent>, f: Field)
    requires Accepts(h.lastSeen, x.ts) && AllAtMost(before, x.ts) && AllAtMost(other, x.ts)
    ensures var lossless, lossy := CasAll(h, before), CasAll(h, other);
            var a, b := CasAll(Cas(lossless, x), after), CasAll(Cas(lossy, x), after);
            && a.lastSeen == b.lastSeen
            && (forall ts :: Accepts(a.lastSeen, ts) <==> Accepts(b.lastSeen, ts))
            && (Lookup(a, f) == Lookup(b, f) <==>
                  f in Writes(x.e) || f in Delta(Some(x.ts), after) || Lookup(lossless, f) == Lookup(lossy, f))
  {
    var lossless, lossy := CasAll(h, before), CasAll(h, other);
    AtMostAfter(h, before, x.ts);
    AtMostAfter(h, other, x.ts);
    AcceptedWrite(lossless, x, f);
    AcceptedWrite(lossy, x, f);
    AgreeIff(Cas(lossless, x), Cas(lossy, x), after, f);
  }

  lemma {:induction false} AcceptedWrite(h: Hash, x: StateEvent, f: Field)
    requires Accepts(h.lastSeen, x.ts)
    ensures Cas(h, x).lastSeen == Some(x.ts)
    ensures Lookup(Cas(h, x), f) == if f in Writes(x.e) then Some(Writes(x.e)[f]) else Lookup(h, f)
  {
    HsetIsOverride(h.fields, StateArgs(x.e));
  }

  /** With one clock, two hashes end up agreeing on a field iff it is written or they agree already. */
  lemma {:induction false} AgreeIff(h1: Hash, h2: Hash, xs: seq<StateEvent>, f: Field)
    requires h1.lastSeen == h2.lastSeen
    ensures CasAll(h1, xs).lastSeen == CasAll(h2, xs).lastSeen
    ensures Lookup(CasAll(h1, xs), f) == Lookup(CasAll(h2, xs), f) <==>
              f in Delta(h1.lastSeen, xs) || Lookup(h1, f) == Lookup(h2, f)
  {
    SameClockSameFuture(h1, h2, xs);
  }

  /** None of the events sets a status. */
  predicate NoStatusAmong(ys: seq<StateEvent>) {
    forall i | 0 <= i < |ys| :: !ys[i].e.eventType.StatusChange?
  }

  lemma {:induction false} StatusStays(h: Hash, ys: seq<StateEvent>)
    requires NoStatusAmong(ys)
    ensures Lookup(CasAll(h, ys), StatusField) == Lookup(h, StatusField)
  {
    if ys != [] {
      var n := |ys| - 1;
      StatusStays(h, ys[..n]);
      WritesOf(ys[n].e);
      HsetIsOverride(CasAll(h, ys[..n]).fields, StateArgs(ys[n].e));
    }
  }

  /**
    "The next event refreshes it" is false for the status: after a lost STATUS_CHANGE no number
    of other events, however new, makes up for it.
   */
  lemma {:induction false} LostStatusStaysLost(h: Hash, x: StateEvent, ys: seq<StateEvent>)
    requires x.e.eventType.StatusChange? && x.e.status != NoStatus && Accepts(h.lastSeen, x.ts)
    requires NoStatusAmong(ys)
    ensures Lookup(CasAll(Cas(h, x), ys), StatusField) == Some(State(x.e.status))
    ensures Lookup(CasAll(h, ys), StatusField) == Lookup(h, StatusField)
  {
    WritesOf(x.e);
    AcceptedWrite(h, x, StatusField);
    StatusStays(Cas(h, x), ys);
    StatusStays(h, ys);
  }

  /**
    When an attempt applies a newer event but not the STATUS_CHANGE before it, the complete retry
    refuses the STATUS_CHANGE: the batch has been re-applied and the status is lost all the same.
   */
  lemma {:induction false} SkippingThenRetryingLoses(h: Hash, x: StateEvent, ys: seq<StateEvent>, k: nat)
    requires x.e.eventType.StatusChange? && x.e.status != NoStatus && Accepts(h.lastSeen, x.ts)
    requires NoStatusAmong(ys) && k < |ys| && x.ts < ys[k].ts
    ensures Lookup(CasAll(h, [x] + ys), StatusField) == Some(State(x.e.status))
    ensures Lookup(CasAll(CasAll(h, ys), [x] + ys), StatusField) == Lookup(h, StatusField)
  {
    var h1 := CasAll(h, ys);
    LostStatusStaysLost(h, x, ys);
    CasAllConcat(h, [x], ys);
    OneEvent(h, x);
    CasAllIsDelta(h, ys);
    LastIsMaximum(h.lastSeen, ys);
    CasAllConcat(h1, [x], ys);
    OneEvent(h1, x);
    StatusStays(h1, ys);
  }

  // ---------------------------------------------------------------------------------------
  // Arrival order
  // ---------------------------------------------------------------------------------------

  /** All events at `top` that write `f` write `v`. */
  predicate Settled(xs: seq<StateEvent>, top: int, f: Field, v: Value) {
    forall i | 0 <= i < |xs| && xs[i].ts == top && f in Writes(xs[i].e) :: Writes(xs[i].e)[f] == v
  }

  predicate WrittenAt(xs: seq<StateEvent>, top: int, f: Field) {
    exists i :: 0 <= i < |xs| && xs[i].ts == top && f in Writes(xs[i].e)
  }

  lemma {:induction false} ClockEndsAtTop(last: Option<int>, xs: seq<StateEvent>, top: int)
    requires Accepts(last, top) && AllAtMost(xs, top)
    ensures (exists i :: 0 <= i < |xs| && xs[i].ts == top) ==> LastOf(last, xs) == Some(top)
    ensures Accepts(LastOf(last, xs), top)
  {
    LastIsMaximum(last, xs);
  }

  lemma {:induction false} NewestWins(last: Option<int>, xs: seq<StateEvent>, top: int, f: Field, v: Value)
    requires Accepts(last, top) && AllAtMost(xs, top) && Settled(xs, top, f, v) && WrittenAt(xs, top, f)
    ensures f in Delta(last, xs) && Delta(last, xs)[f] == v
  {
    var n := |xs| - 1;
    ClockEndsAtTop(last, xs[..n], top);
    if xs[n].ts != top || f !in Writes(xs[n].e) {
      WrittenEarlier(xs, top, f);
      NewestWins(last, xs[..n], top, f, v);
      OlderDoesNotOverride(last, xs[..n], xs[n], top, f);
    }
  }

  lemma {:induction false} WrittenEarlier(xs: seq<StateEvent>, top: int, f: Field)
    requires WrittenAt(xs, top, f) && !(xs[|xs| - 1].ts == top && f in Writes(xs[|xs| - 1].e))
    ensures WrittenAt(xs[..|xs| - 1], top, f)
  {
  }

  /** Once the newest instant has been seen, an older event is refused. */
  lemma {:induction false} OlderDoesNotOverride(
    last: Option<int>, xs: seq<StateEvent>, x: StateEvent, top: int, f: Field)
    requires Accepts(last, top) && AllAtMost(xs, top) && WrittenAt(xs, top, f) && x.ts <= top
    ensures x.ts < top ==> !Accepts(LastOf(last, xs), x.ts)
  {
    ClockEndsAtTop(last, xs, top);
    var i :| 0 <= i < |xs| && xs[i].ts == top && f in Writes(xs[i].e);
  }

  /**
    Arrival order and repetition do not matter for the newest: two histories made of the same
    events end with the maximum timestamp and agree on every field that the newest events
    write without contradicting each other.
   */
  lemma {:induction false} OrderDoesNotMatter(
    h: Hash, xs: seq<StateEvent>, ys: seq<StateEvent>, top: int, f: Field, v: Value)
    requires forall x :: x in xs <==> x in ys
    requires Accepts(h.lastSeen, top) && AllAtMost(xs, top)
    requires Settled(xs, top, f, v) && WrittenAt(xs, top, f)
    ensures CasAll(h, xs).lastSeen == CasAll(h, ys).lastSeen == Some(top)
    ensures Lookup(CasAll(h, xs), f) == Lookup(CasAll(h, ys), f) == Some(v)
  {
    forall i | 0 <= i < |ys|
      ensures ys[i] in xs
    {
      assert ys[i] in ys;
    }
    var k :| 0 <= k < |xs| && xs[k].ts == top && f in Writes(xs[k].e);
    assert xs[k] in ys;
    var j :| 0 <= j < |ys| && ys[j] == xs[k];
    NewestSurvives(h, xs, top, f, v);
    NewestSurvives(h, ys, top, f, v);
  }

  /** What the newest events write without contradicting each other is what the hash ends with. */
  lemma {:induction false} NewestSurvives(h: Hash, xs: seq<StateEvent>, top: int, f: Field, v: Value)
    requires Accepts(h.lastSeen, top) && AllAtMost(xs, top) && Settled(xs, top, f, v) && WrittenAt(xs, top, f)
    ensures CasAll(h, xs).lastSeen == Some(top) && Lookup(CasAll(h, xs), f) == Some(v)
  {
    CasAllIsDelta(h, xs);
    NewestWins(h.lastSeen, xs, top, f, v);
    ClockEndsAtTop(h.lastSeen, xs, top);
    var i :| 0 <= i < |xs| && xs[i].ts == top && f in Writes(xs[i].e);
  }

  /** The event whose value a field ends with: the last accepted one that writes it. */
  function Winner(last: Option<int>, xs: seq<StateEvent>, f: Field): (r: Option<nat>)
    ensures r.Some? ==> r.value < |xs| && f in Writes(xs[r.value].e)
  {
    if xs == [] then None
    else
      var n := |xs| - 1;
      if Accepts(LastOf(last, xs[..n]), xs[n].ts) && f in Writes(xs[n].e) then Some(n) else Winner(last, xs[..n], f)
  }

  /** The newest writer of `f`, at `top`, reaches the store before anything newer. */
  predicate ArrivesInTime(xs: seq<StateEvent>, f: Field, top: int) {
    exists i :: 0 <= i < |xs| && xs[i].ts == top && f in Writes(xs[i].e) && AllAtMost(xs[..i], top)
  }

  predicate WritersAtMost(xs: seq<StateEvent>, f: Field, top: int) {
    forall i | 0 <= i < |xs| && f in Writes(xs[i].e) :: xs[i].ts <= top
  }

  /** A field ends with the winner's value, or keeps what it had. */
  lemma {:induction false} FieldIsWinners(h: Hash, xs: seq<StateEvent>, f: Field)
    ensures var w := Winner(h.lastSeen, xs, f);
            Lookup(CasAll(h, xs), f) == if w.Some? then Some(Writes(xs[w.value].e)[f]) else Lookup(h, f)
  {
    CasAllIsDelta(h, xs);
    WinnerIsDelta(h.lastSeen, xs, f);
  }

  lemma {:induction false} WinnerIsDelta(last: Option<int>, xs: seq<StateEvent>, f: Field)
    ensures var w := Winner(last, xs, f);
            && (f in Delta(last, xs) <==> w.Some?)
            && (w.Some? ==> Delta(last, xs)[f] == Writes(xs[w.value].e)[f])
  {
    if xs != [] {
      WinnerIsDelta(last, xs[..|xs| - 1], f);
    }
  }

  lemma {:induction false} AcceptsIff(last: Option<int>, xs: seq<StateEvent>, ts: int)
    ensures Accepts(LastOf(last, xs), ts) <==> Accepts(last, ts) && AllAtMost(xs, ts)
  {
    LastIsMaximum(last, xs);
  }

  lemma {:induction false} ArrivesSnoc(xs: seq<StateEvent>, f: Field, top: int)
    requires xs != []
    ensures var n := |xs| - 1;
            ArrivesInTime(xs, f, top) <==>
              ArrivesInTime(xs[..n], f, top) || (xs[n].ts == top && f in Writes(xs[n].e) && AllAtMost(xs[..n], top))
  {
    var n := |xs| - 1;
    assert forall i | 0 <= i < n :: xs[..n][i] == xs[i] && xs[..n][..i] == xs[..i];
    if ArrivesInTime(xs[..n], f, top) {
      var i :| 0 <= i < n && xs[..n][i].ts == top && f in Writes(xs[..n][i].e) && AllAtMost(xs[..n][..i], top);
      assert xs[i].ts == top && AllAtMost(xs[..i], top);
    }
  }

  /**
    "A field holds the newest value ever sent" is true exactly when the newest writer reaches the
    store before anything newer: one newer event of any kind, or a newer clock to start with,
    makes the guard refuse it for good. Repeats, recurring values and ties change nothing.
   */
  lemma {:induction false} FieldIsNewestIff(last: Option<int>, xs: seq<StateEvent>, f: Field, top: int)
    requires WritersAtMost(xs, f, top)
    ensures var w := Winner(last, xs, f);
            (w.Some? && xs[w.value].ts == top) <==> Accepts(last, top) && ArrivesInTime(xs, f, top)
  {
    if xs != [] {
      var n := |xs| - 1;
      FieldIsNewestIff(last, xs[..n], f, top);
      AcceptsIff(last, xs[..n], xs[n].ts);
      ArrivesSnoc(xs, f, top);
      TopIsReached(xs[..n], f, top);
    }
  }

  lemma {:induction false} TopIsReached(xs: seq<StateEvent>, f: Field, top: int)
    ensures ArrivesInTime(xs, f, top) ==> forall ts | AllAtMost(xs, ts) :: top <= ts
  {
  }

  /** In terms of values: if only the newest writers write `v`, the field ends with `v` iff one is in time. */
  lemma {:induction false} NewestValueIff(h: Hash, xs: seq<StateEvent>, f: Field, top: int, v: Value)
    requires WritersAtMost(xs, f, top) && Lookup(h, f) != Some(v)
    requires forall i | 0 <= i < |xs| && f in Writes(xs[i].e) :: Writes(xs[i].e)[f] == v <==> xs[i].ts == top
    ensures Lookup(CasAll(h, xs), f) == Some(v) <==> Accepts(h.lastSeen, top) && ArrivesInTime(xs, f, top)
  {
    FieldIsWinners(h, xs, f);
    FieldIsNewestIff(h.lastSeen, xs, f, top);
  }

  /**
    The fault-abort triple shares one timestamp. In whatever order, with whatever older events
    in between and however often repeated, the connector ends Faulted with no session and no power.
   */
  lemma {:induction false} FaultTripleEndsFaulted(
    h: Hash, xs: seq<StateEvent>, alert: StateEvent, stop: StateEvent, change: StateEvent)
    requires alert.e.eventType.FaultAlert? && alert.e.meter.None?
    requires stop.e.eventType.SessionStop?
    requires change.e.eventType.StatusChange? && change.e.status == Faulted && change.e.meter.None?
    requires alert.ts == stop.ts == change.ts && Accepts(h.lastSeen, stop.ts)
    requires stop in xs && change in xs
    requires forall x | x in xs :: x.ts < stop.ts || x == alert || x == stop || x == change
    ensures var r := CasAll(h, xs);
            && r.lastSeen == Some(stop.ts)
            && Lookup(r, StatusField) == Some(State(Faulted))
            && Lookup(r, SessionField) == Some(Text(""))
            && Lookup(r, Power) == Some(Number(0.0))
  {
    WritesOf(alert.e);
    WritesOf(stop.e);
    WritesOf(change.e);
    TripleSettles(h, xs, alert, stop, change, change, StatusField, State(Faulted));
    TripleSettles(h, xs, alert, stop, change, stop, SessionField, Text(""));
    TripleSettles(h, xs, alert, stop, change, stop, Power, Number(0.0));
  }

  /** The triple agrees on what `writer`, one of the three, writes to `f`. */
  lemma {:induction false} TripleSettles(
    h: Hash, xs: seq<StateEvent>, alert: StateEvent, stop: StateEvent, change: StateEvent,
                                         writer: StateEvent, f: Field, v: Value)
    requires alert.ts == stop.ts == change.ts == writer.ts && Accepts(h.lastSeen, stop.ts)
    requires forall x | x in xs :: x.ts < stop.ts || x == alert || x == stop || x == change
    requires writer in xs && f in Writes(writer.e)
    requires forall x | x in {alert, stop, change} && f in Writes(x.e) :: Writes(x.e)[f] == v
    ensures CasAll(h, xs).lastSeen == Some(stop.ts) && Lookup(CasAll(h, xs), f) == Some(v)
  {
    assert forall i | 0 <= i < |xs| :: xs[i] in xs;
    var i :| 0 <= i < |xs| && xs[i] == writer;
    NewestSurvives(h, xs, stop.ts, f, v);
  }

  // ---------------------------------------------------------------------------------------
  // A complete pass after any part of the batch
  // ---------------------------------------------------------------------------------------

  /** Everything done so far comes from the batch; order, gaps and repeats are left open. */
  predicate Among(done: seq<StateEvent>, xs: seq<StateEvent>) {
    forall i | 0 <= i < |done| :: done[i] in xs
  }

  lemma {:induction false} SameHash(a: Hash, b: Hash)
    ensures a == b <==> a.lastSeen == b.lastSeen && forall f :: Lookup(a, f) == Lookup(b, f)
  {
    if forall f :: Lookup(a, f) == Lookup(b, f) {
      forall f: Field
        ensures f in a.fields <==> f in b.fields
        ensures f in a.fields ==> a.fields[f] == b.fields[f]
      {
        assert Lookup(a, f) == Lookup(b, f);
      }
      assert a.fields == b.fields;
    }
  }

  /** From a later clock the winner stays the same, or is too old and nobody takes its place. */
  lemma {:induction false} WinnerFromLater(last: Option<int>, late: Option<int>, xs: seq<StateEvent>, f: Field)
    requires last.Some? ==> late.Some? && last.value <= late.value
    ensures var w := Winner(last, xs, f);
            Winner(late, xs, f) == if w.Some? && Accepts(late, xs[w.value].ts) then w else None
  {
    if xs != [] {
      var n := |xs| - 1;
      WinnerFromLater(last, late, xs[..n], f);
      AcceptsIff(last, xs[..n], xs[n].ts);
      AcceptsIff(late, xs[..n], xs[n].ts);
    }
  }

  /** The batch brings the clock to the same place, whatever part of it was done before. */
  lemma {:induction false} ClockAfterRetry(last: Option<int>, done: seq<StateEvent>, xs: seq<StateEvent>)
    requires Among(done, xs)
    ensures LastOf(LastOf(last, done), xs) == LastOf(last, xs)
  {
    var mid, full := LastOf(last, done), LastOf(last, xs);
    LastIsMaximum(last, done);
    LastIsMaximum(mid, xs);
    LastIsMaximum(last, xs);
    forall i | 0 <= i < |done|
      ensures full.Some? && done[i].ts <= full.value
    {
      var j :| 0 <= j < |xs| && xs[j] == done[i];
    }
  }

  /** A field after the complete pass: what one application gives, or what the part left. */
  lemma {:induction false} FieldAfterRetry(h: Hash, done: seq<StateEvent>, xs: seq<StateEvent>, f: Field)
    ensures var w := Winner(h.lastSeen, xs, f);
            Lookup(CasAll(CasAll(h, done), xs), f)
            == if w.Some? && Accepts(LastOf(h.lastSeen, done), xs[w.value].ts) then Lookup(CasAll(h, xs), f)
               else Lookup(CasAll(h, done), f)
  {
    CasAllIsDelta(h, done);
    LastIsMaximum(h.lastSeen, done);
    WinnerFromLater(h.lastSeen, LastOf(h.lastSeen, done), xs, f);
    FieldIsWinners(h, xs, f);
    FieldIsWinners(CasAll(h, done), xs, f);
  }

  /**
    A field is safe when its winner in the batch is at least as new as the clock that the part
    left, or when the part already left the final value.
   */
  predicate SafeFor(h: Hash, done: seq<StateEvent>, xs: seq<StateEvent>, f: Field) {
    var w := Winner(h.lastSeen, xs, f);
    || (w.Some? && Accepts(LastOf(h.lastSeen, done), xs[w.value].ts))
    || Lookup(CasAll(h, done), f) == Lookup(CasAll(h, xs), f)
  }

  ghost predicate RetryIsSafe(h: Hash, done: seq<StateEvent>, xs: seq<StateEvent>) {
    forall f :: SafeFor(h, done, xs, f)
  }

  /**
    Re-applying a batch, exactly: after any part of it, in any order and with any repeats, the
    complete pass leaves the hash as one application does if and only if every field is safe.
   */
  lemma {:induction false} RetryIff(h: Hash, done: seq<StateEvent>, xs: seq<StateEvent>)
    requires Among(done, xs)
    ensures CasAll(CasAll(h, done), xs) == CasAll(h, xs) <==> RetryIsSafe(h, done, xs)
  {
    var a, b := CasAll(CasAll(h, done), xs), CasAll(h, xs);
    CasAllIsDelta(h, done);
    CasAllIsDelta(CasAll(h, done), xs);
    CasAllIsDelta(h, xs);
    ClockAfterRetry(h.lastSeen, done, xs);
    forall f
      ensures Lookup(a, f) == Lookup(b, f) <==> SafeFor(h, done, xs, f)
    {
      FieldAfterRetry(h, done, xs, f);
    }
    SameHash(a, b);
  }

  // ---------------------------------------------------------------------------------------
  // A pass that changes nothing
  // ---------------------------------------------------------------------------------------

  /**
    Nothing in the pass is newer than the clock, and the last event at the clock to write a
    field writes what is there.
   */
  ghost predicate IsIdle(h: Hash, ys: seq<StateEvent>) {
    ys != [] ==>
      && h.lastSeen.Some? && AllAtMost(ys, h.lastSeen.value)
      && forall f | LastAt(ys, h.lastSeen.value, f).Some? ::
           Lookup(h, f) == Some(Writes(ys[LastAt(ys, h.lastSeen.value, f).value].e)[f])
  }

  /** Any pass over any hash, a second broken attempt in particular, changes nothing iff it is idle. */
  lemma {:induction false} PassChangesNothingIff(h: Hash, ys: seq<StateEvent>)
    ensures CasAll(h, ys) == h <==> IsIdle(h, ys)
  {
    CasAllIsDelta(h, ys);
    LastIsMaximum(h.lastSeen, ys);
    if ys != [] && h.lastSeen.Some? && AllAtMost(ys, h.lastSeen.value) {
      IdleIsWithin(h, ys, h.lastSeen.value);
      var d := Delta(h.lastSeen, ys);
      assert Within(d, h.fields) ==> h.fields + d == h.fields;
      assert forall f | f in d :: (h.fields + d)[f] == d[f];
      AcceptsIff(h.lastSeen, ys, h.lastSeen.value);
    }
  }

  lemma {:induction false} IdleIsWithin(h: Hash, ys: seq<StateEvent>, top: int)
    requires h.lastSeen == Some(top) && AllAtMost(ys, top) && ys != []
    ensures IsIdle(h, ys) <==> Within(Delta(Some(top), ys), h.fields)
  {
    forall f
      ensures f in Delta(Some(top), ys) <==> LastAt(ys, top, f).Some?
      ensures LastAt(ys, top, f).Some? ==> Delta(Some(top), ys)[f] == Writes(ys[LastAt(ys, top, f).value].e)[f]
    {
      TopWritersDecide(ys, top, f);
    }
  }
}
