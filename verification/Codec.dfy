/**
 MarshalJSON and UnmarshalJSON of an event in internal/models/types.go: the timestamp,
 and what members that are left out leave behind.
 */
module Codec {
  import opened Models
  import opened Float

  /** The timestamp member of the JSON object; a number that is no integer is kept apart. */
  datatype Stamp = Number(n: int) | Fraction(x: real) | Text(s: string) | Other

  /** Any other member: not there, null, or a value. */
  datatype Member<T> = Missing | Null | Present(value: T)

  datatype Wire = Wire(
    stamp: Stamp,
    eventId: Member<string>,
    traceId: Member<string>,
    spanId: Member<string>,
    moduleName: Member<string>,
    eventType: Member<string>,
    severity: Member<string>,
    tenantId: Member<string>,
    userId: Member<string>,
    requestId: Member<string>,
    labels: Member<map<string, string>>,
    data: Member<map<string, string>>,
    pipelineType: Member<string>,
    modulesUsed: Member<seq<string>>,
    modulesSkipped: Member<seq<string>>,
    durationMs: Member<int>,
    status: Member<string>,
    signature: Member<string>)

  /**
   The two textual layouts, what int64 makes of a float64 that is out of its range,
   and the integer part of the float64 that is nearest to a fraction.
   */
  datatype Library = Library(
    parseNano: string -> Option<Time>,
    parseSeconds: string -> Option<Time>,
    outOfRange: int -> int,
    wholePart: real -> int)

  /** UnixNano: the count of nanoseconds in 64 bits, wrapping around. */
  function UnixNano(t: Time): (r: int)
    ensures -TWO_63 <= r < TWO_63
    ensures -TWO_63 <= t < TWO_63 ==> r == t
    ensures (t - r) % 0x1_0000_0000_0000_0000 == 0
  {
    (t + TWO_63) % (2 * TWO_63) - TWO_63
  }

  /** Members marked omitempty are left out when they hold nothing. */
  function Marshal(e: BastionEvent): Wire {
    Wire(
      Number(UnixNano(e.timestamp)),
      Present(e.eventId), Present(e.traceId), Present(e.spanId), Present(e.moduleName), Present(e.eventType),
      Present(e.severity), Present(e.tenantId), Present(e.userId), Present(e.requestId),
      if e.labels == map[] then Missing else Present(e.labels),
      if e.data == map[] then Missing else Present(e.data),
      Present(e.pipelineType),
      if e.modulesUsed == [] then Missing else Present(e.modulesUsed),
      if e.modulesSkipped == [] then Missing else Present(e.modulesSkipped),
      Present(e.durationMs), Present(e.status),
      if e.signature == "" then Missing else Present(e.signature))
  }

  // What a member makes of the value that was there before

  function Plain<T>(m: Member<T>, before: T): T {
    if m.Present? then m.value else before
  }

  /** A list is replaced, and null empties it. */
  function Replaced(m: Member<seq<string>>, before: seq<string>): seq<string> {
    if m.Null? then [] else Plain(m, before)
  }

  /** The entries are added to those of the map that was there. */
  function Merged(m: Member<map<string, string>>, before: map<string, string>): map<string, string> {
    match m
    case Missing => before
    case Null => map[]
    case Present(entries) => before + entries
  }

  /** int64 of a float64. */
  function ToInt64(lib: Library, v: int): int {
    if -TWO_63 <= v < TWO_63 then v else lib.outOfRange(v)
  }

  /** What the timestamp becomes; any other form leaves the one that was there. */
  function Decoded(lib: Library, stamp: Stamp, before: Time): Time {
    match stamp
    case Number(n) => ToInt64(lib, Round(n))
    case Fraction(x) => ToInt64(lib, lib.wholePart(x))
    case Text(s) =>
      if lib.parseNano(s).Some? then lib.parseNano(s).value
      else if lib.parseSeconds(s).Some? then lib.parseSeconds(s).value
      else before
    case _ => before
  }

  /** The event after decoding a well-typed object into it. */
  function Filled(lib: Library, w: Wire, before: BastionEvent): BastionEvent {
    BastionEvent(
      Plain(w.eventId, before.eventId),
      Plain(w.traceId, before.traceId),
      Plain(w.spanId, before.spanId),
      Plain(w.moduleName, before.moduleName),
      Plain(w.eventType, before.eventType),
      Plain(w.severity, before.severity),
      Decoded(lib, w.stamp, before.timestamp),
      Plain(w.tenantId, before.tenantId),
      Plain(w.userId, before.userId),
      Plain(w.requestId, before.requestId),
      Merged(w.labels, before.labels),
      Merged(w.data, before.data),
      Plain(w.pipelineType, before.pipelineType),
      Replaced(w.modulesUsed, before.modulesUsed),
      Replaced(w.modulesSkipped, before.modulesSkipped),
      Plain(w.durationMs, before.durationMs),
      Plain(w.status, before.status),
      Plain(w.signature, before.signature))
  }

  class Target {
    var e: BastionEvent

    /** json.Unmarshal into the alias: member by member, and the timestamp not yet. */
    method Fill(w: Wire)
      modifies this
      ensures forall lib :: e.(timestamp := Decoded(lib, w.stamp, e.timestamp)) == Filled(lib, w, old(e))
      ensures e.timestamp == old(e.timestamp)
    {
      e := e.(
        eventId := Plain(w.eventId, e.eventId),
        traceId := Plain(w.traceId, e.traceId),
        spanId := Plain(w.spanId, e.spanId),
        moduleName := Plain(w.moduleName, e.moduleName),
        eventType := Plain(w.eventType, e.eventType),
        severity := Plain(w.severity, e.severity),
        tenantId := Plain(w.tenantId, e.tenantId),
        userId := Plain(w.userId, e.userId),
        requestId := Plain(w.requestId, e.requestId),
        pipelineType := Plain(w.pipelineType, e.pipelineType),
        durationMs := Plain(w.durationMs, e.durationMs),
        status := Plain(w.status, e.status),
        signature := Plain(w.signature, e.signature));
      e := e.(labels := Merged(w.labels, e.labels), data := Merged(w.data, e.data));
      e := e.(
        modulesUsed := Replaced(w.modulesUsed, e.modulesUsed),
        modulesSkipped := Replaced(w.modulesSkipped, e.modulesSkipped));
    }

    /** Fills in the fields, then decides on the timestamp. */
    method Unmarshal(lib: Library, w: Wire)
      modifies this
      ensures e == Filled(lib, w, old(e))
    {
      hide Filled, Round;
      Fill(w);
      match w.stamp {
        case Number(n) =>
          e := e.(timestamp := ToInt64(lib, Round(n)));
        case Fraction(x) =>
          e := e.(timestamp := ToInt64(lib, lib.wholePart(x)));
        case Text(s) =>
          var t := lib.parseNano(s);
          if t.Some? {
            e := e.(timestamp := t.value);
          } else {
            t := lib.parseSeconds(s);
            if t.Some? {
              e := e.(timestamp := t.value);
            }
          }
        case Other =>
      }
    }

    /** One hop over the wire, into whatever was there before. */
    method Hop(lib: Library, sent: BastionEvent)
      modifies this
      ensures e == Received(lib, old(e), sent)
    {
      HopMembers(lib, e, sent);
      Unmarshal(lib, Marshal(sent));
    }
  }

  /**
   What arrives over what was there: the timestamp after one hop; entries of the
   earlier maps that are not overwritten stay, and so do an earlier list or signature
   where none is sent.
   */
  function Received(lib: Library, before: BastionEvent, sent: BastionEvent): BastionEvent {
    sent.(
      timestamp := OneHop(lib, sent.timestamp),
      labels := before.labels + sent.labels,
      data := before.data + sent.data,
      modulesUsed := if sent.modulesUsed == [] then before.modulesUsed else sent.modulesUsed,
      modulesSkipped := if sent.modulesSkipped == [] then before.modulesSkipped else sent.modulesSkipped,
      signature := if sent.signature == "" then before.signature else sent.signature)
  }

  lemma HopMembers(lib: Library, before: BastionEvent, sent: BastionEvent)
    ensures Filled(lib, Marshal(sent), before) == Received(lib, before, sent)
  {
    hide Round;
    assert before.labels + map[] == before.labels && before.data + map[] == before.data;
  }

  // What a decoder takes and what it leaves

  /** A text is taken in the first of the two layouts that reads it, and otherwise leaves the time that was there. */
  lemma TextTaken(lib: Library, w: Wire, s: string, before: BastionEvent)
    requires w.stamp == Text(s)
    ensures lib.parseNano(s).Some? ==> Filled(lib, w, before).timestamp == lib.parseNano(s).value
    ensures lib.parseNano(s).None? && lib.parseSeconds(s).Some? ==>
      Filled(lib, w, before).timestamp == lib.parseSeconds(s).value
    ensures lib.parseNano(s).None? && lib.parseSeconds(s).None? ==> Filled(lib, w, before).timestamp == before.timestamp
  {
  }

  /** A number in the range of 64 bits is taken rounded, and a form that is neither number nor text not at all. */
  lemma NumberTaken(lib: Library, w: Wire, before: BastionEvent)
    ensures w.stamp.Number? && -0x8000_0000_0000_0000 <= Round(w.stamp.n) < 0x8000_0000_0000_0000 ==>
      Filled(lib, w, before).timestamp == Round(w.stamp.n)
    ensures w.stamp.Fraction? && -0x8000_0000_0000_0000 <= lib.wholePart(w.stamp.x) < 0x8000_0000_0000_0000 ==>
      Filled(lib, w, before).timestamp == lib.wholePart(w.stamp.x)
    ensures w.stamp == Other ==> Filled(lib, w, before).timestamp == before.timestamp
  {
    hide Round;
  }

  /** An object without members changes nothing but the time, and null does no more to a string or a number. */
  lemma NothingSent(lib: Library, stamp: Stamp, before: BastionEvent, none: Member<string>, no: Member<int>)
    requires !none.Present? && !no.Present?
    ensures Filled(lib,
        Wire(stamp, none, none, none, none, none, none, none, none, none, Missing, Missing, none, Missing, Missing, no,
             none, none), before)
      == before.(timestamp := Decoded(lib, stamp, before.timestamp))
  {
  }

  /** Null empties maps and lists; a value adds to a map, its own entries first, and replaces a list. */
  lemma MapsAndLists(lib: Library, w: Wire, before: BastionEvent, k: string)
    ensures var after := Filled(lib, w, before);
      && (w.labels == Null ==> after.labels == map[]) && (w.data == Null ==> after.data == map[])
      && (w.modulesUsed == Null ==> after.modulesUsed == [])
      && (w.modulesSkipped == Null ==> after.modulesSkipped == [])
      && (w.modulesUsed.Present? ==> after.modulesUsed == w.modulesUsed.value)
      && (w.modulesSkipped.Present? ==> after.modulesSkipped == w.modulesSkipped.value)
      && (w.labels.Present? ==>
            && after.labels.Keys == before.labels.Keys + w.labels.value.Keys
            && (k in w.labels.value ==> after.labels[k] == w.labels.value[k])
            && (k in before.labels && k !in w.labels.value ==> after.labels[k] == before.labels[k]))
      && (w.data.Present? ==>
            && after.data.Keys == before.data.Keys + w.data.value.Keys
            && (k in w.data.value ==> after.data[k] == w.data.value[k])
            && (k in before.data && k !in w.data.value ==> after.data[k] == before.data[k]))
  {
    hide Decoded;
  }

  /** Into a fresh event one hop brings what was sent, the timestamp aside. */
  lemma FreshHop(lib: Library, sent: BastionEvent)
    ensures Received(lib, ZERO_EVENT, sent) == sent.(timestamp := OneHop(lib, sent.timestamp))
  {
    assert map[] + sent.labels == sent.labels && map[] + sent.data == sent.data;
  }

  /**
   Into an earlier event exactly when nothing of it shows through: no entry of its
   maps under a key that is not sent, and no list and no signature where none is sent.
   */
  lemma CleanHopIff(lib: Library, before: BastionEvent, sent: BastionEvent)
    ensures Received(lib, before, sent) == sent.(timestamp := OneHop(lib, sent.timestamp)) <==>
      && before.labels.Keys <= sent.labels.Keys && before.data.Keys <= sent.data.Keys
      && (sent.modulesUsed == [] ==> before.modulesUsed == [])
      && (sent.modulesSkipped == [] ==> before.modulesSkipped == [])
      && (sent.signature == "" ==> before.signature == "")
  {
    hide OneHop;
    CoveredMap(before.labels, sent.labels);
    CoveredMap(before.data, sent.data);
  }

  lemma CoveredMap(before: map<string, string>, sent: map<string, string>)
    ensures before + sent == sent <==> before.Keys <= sent.Keys
  {
    assert (before + sent).Keys == before.Keys + sent.Keys;
  }

  /** What a hop makes of a timestamp. */
  function OneHop(lib: Library, t: Time): Time {
    Decoded(lib, Number(UnixNano(t)), t)
  }

  /**
   Round trip: for every 64-bit nanosecond count below 2^63 - 512 the decoded
   timestamp is the encoded one rounded to 53 bits, whatever the platform does with
   values out of range.
   */
  lemma RoundTrip(lib: Library, t: Time)
    requires -TWO_63 <= t < TWO_63 - 512
    ensures OneHop(lib, t) == Round(t)
    ensures Abs(t) <= TWO_53 ==> OneHop(lib, t) == t
    ensures forall k: nat :: k >= 53 && Pow2(k) <= Abs(t) < Pow2(k + 1) ==> Abs(OneHop(lib, t) - t) <= Pow2(k - 53)
  {
    hide Round, Pow2;
    FitsIff(t);
    if Abs(t) <= TWO_53 {
      ExactUpTo53Bits(t);
    }
    forall k: nat | k >= 53 && Pow2(k) <= Abs(t) < Pow2(k + 1)
      ensures Abs(OneHop(lib, t) - t) <= Pow2(k - 53)
    {
      ErrorBound(t, k);
    }
  }

  /** The topmost 512 counts are left to the platform. */
  lemma TopmostOverflow(lib: Library, t: Time)
    requires TWO_63 - 512 <= t < TWO_63
    ensures OneHop(lib, t) == lib.outOfRange(TWO_63)
  {
    hide Round;
    TopOfRange();
    PastTheTop();
    Monotone(TWO_63 - 512, t);
    Monotone(t, TWO_63);
  }

  /** Order is kept over a hop. */
  lemma HopKeepsOrder(lib: Library, a: Time, b: Time)
    requires -TWO_63 <= a <= b < TWO_63 - 512
    ensures OneHop(lib, a) <= OneHop(lib, b)
  {
    hide Round;
    RoundTrip(lib, a);
    RoundTrip(lib, b);
    Monotone(a, b);
  }

  /** After the first hop every further one is the identity. */
  lemma {:induction false} LaterHopsExact(lib: Library, t: Time, hops: nat)
    requires -TWO_63 <= t < TWO_63 - 512
    ensures Hops(lib, OneHop(lib, t), hops) == OneHop(lib, t)
  {
    hide Round;
    if hops > 0 {
      var r := OneHop(lib, t);
      RoundTrip(lib, t);
      Idempotent(t);
      StaysInRange(t);
      RoundTrip(lib, r);
      LaterHopsExact(lib, t, hops - 1);
    }
  }

  function Hops(lib: Library, t: Time, hops: nat): Time
    decreases hops
  {
    if hops == 0 then t else Hops(lib, OneHop(lib, t), hops - 1)
  }

  lemma StaysInRange(t: Time)
    requires -TWO_63 <= t < TWO_63 - 512
    ensures -TWO_63 <= Round(t) < TWO_63 - 512
  {
    hide Round;
    FitsIff(t);
    TopOfRange();
    if t <= TWO_63 - 513 {
      Monotone(t, TWO_63 - 513);
    }
  }

  /**
   A timestamp survives a hop exactly if it fits 64 bits and 53 bits of mantissa,
   provided its rounding does not overflow.
   */
  lemma SurvivesIff(lib: Library, t: Time)
    requires Round(UnixNano(t)) < TWO_63
    ensures OneHop(lib, t) == t <==> (-TWO_63 <= t < TWO_63 && Representable(t))
  {
    hide Round, Representable;
    FitsIff(UnixNano(t));
    FixedIffRepresentable(t);
  }

  /** Go's zero time does not: it wraps around to a day in 1754 and is no longer zero. */
  lemma ZeroTimeDoesNotSurvive(lib: Library)
    ensures OneHop(lib, ZERO_TIME) != ZERO_TIME
  {
    hide Round;
    var n := UnixNano(ZERO_TIME);
    assert n == -6795364578871345152;
    FitsIff(n);
  }
}
