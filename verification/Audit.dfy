/** The audit seal of internal/audit/signer.go: HMAC over seven fields joined with '|'. */
module Audit {
  import opened Models
  import opened Fields
  import Codec

  /** Hex-encoded HMAC-SHA256, as a function of key and message. */
  type Mac = (string, string) -> string

  /** The fields the seal covers; the timestamp as its 64-bit nanosecond count. */
  datatype Identity = Identity(
    eventId: string,
    nanos: int,
    moduleName: string,
    eventType: string,
    tenantId: string,
    severity: string,
    status: string)

  function IdentityOf(e: BastionEvent): Identity {
    Identity(e.eventId, Codec.UnixNano(e.timestamp), e.moduleName, e.eventType, e.tenantId, e.severity, e.status)
  }

  function Bar(a: string, b: string): string {
    a + [PIPE] + b
  }

  /** The string that is signed. */
  function Canonical(id: Identity): string {
    Bar(Bar(Bar(Bar(Bar(Bar(id.eventId, Decimal(id.nanos)), id.moduleName), id.eventType), id.tenantId), id.severity),
      id.status)
  }

  datatype Signer = Signer(key: string, mac: Mac) {

    function Compute(e: BastionEvent): string {
      mac(key, Canonical(IdentityOf(e)))
    }

    function Sign(e: BastionEvent): BastionEvent {
      e.(signature := Compute(e))
    }

    predicate Verify(e: BastionEvent) {
      e.signature != "" && e.signature == Compute(e)
    }
  }

  /** A hex string is never empty. */
  ghost predicate NonEmptyMacs(mac: Mac) {
    forall k, c :: mac(k, c) != ""
  }

  lemma SignedVerifies(signer: Signer, e: BastionEvent)
    requires NonEmptyMacs(signer.mac)
    ensures signer.Verify(signer.Sign(e))
  {
    assert IdentityOf(signer.Sign(e)) == IdentityOf(e);
  }

  /**
   What is sealed: the seven fields joined by pipes, the timestamp as its 64-bit count
   of nanoseconds; and a seal is valid if it is there and is the one just computed.
   */
  lemma SealIs(signer: Signer, e: BastionEvent)
    ensures signer.Sign(e) == e.(signature := signer.mac(signer.key,
      e.eventId + "|" + Decimal(Codec.UnixNano(e.timestamp)) + "|" + e.moduleName + "|" + e.eventType + "|"
      + e.tenantId + "|" + e.severity + "|" + e.status))
    ensures signer.Verify(e) <==> e.signature != "" && e.signature == signer.Sign(e).signature
  {
    hide Decimal;
    var n := Decimal(Codec.UnixNano(e.timestamp));
    assert e.eventId + "|" + n + "|" + e.moduleName + "|" + e.eventType + "|" + e.tenantId + "|" + e.severity + "|"
        + e.status
      == Canonical(IdentityOf(e));
  }

  // Which events the canonical string identifies

  /** Whether a segment would read as a timestamp. */
  ghost predicate IsStamp(s: string) {
    exists n :: InRange(n) && s == Decimal(n)
  }

  predicate InRange(n: int) {
    -0x8000_0000_0000_0000 <= n < 0x8000_0000_0000_0000
  }

  /**
   No pipe in the last five fields, and no segment of the event ID after a pipe that
   reads as a 64-bit decimal.
   */
  ghost predicate Unambiguous(id: Identity) {
    && NoPipe(id.moduleName) && NoPipe(id.eventType) && NoPipe(id.tenantId) && NoPipe(id.severity) && NoPipe(id.status)
    && (forall i :: 0 < i < |Split(id.eventId)| ==> !IsStamp(Split(id.eventId)[i]))
  }

  /** The canonical string, as segments. */
  function Segments(id: Identity): seq<string> {
    Split(id.eventId) + [Decimal(id.nanos)] + Tail(id)
  }

  function Tail(id: Identity): seq<string> {
    Split(id.moduleName) + Split(id.eventType) + Split(id.tenantId) + Split(id.severity) + Split(id.status)
  }

  lemma SplitCanonical(id: Identity)
    ensures Split(Canonical(id)) == Segments(id)
  {
    hide Split, Decimal;
    var c1 := Bar(id.eventId, Decimal(id.nanos));
    var c2 := Bar(c1, id.moduleName);
    var c3 := Bar(c2, id.eventType);
    var c4 := Bar(c3, id.tenantId);
    var c5 := Bar(c4, id.severity);
    SplitConcat(id.eventId, Decimal(id.nanos));
    DecimalNoPipe(id.nanos);
    SplitNoPipe(Decimal(id.nanos));
    SplitConcat(c1, id.moduleName);
    SplitConcat(c2, id.eventType);
    SplitConcat(c3, id.tenantId);
    SplitConcat(c4, id.severity);
    SplitConcat(c5, id.status);
  }

  /** An unambiguous identity is read back from its canonical string. */
  lemma Identified(a: Identity, b: Identity)
    requires Unambiguous(a) && InRange(b.nanos) && Canonical(a) == Canonical(b)
    ensures a == b
  {
    SplitCanonical(a);
    SplitCanonical(b);
    OneSegmentEach(a);
    var na, nb := |Split(a.eventId)|, |Split(b.eventId)|;
    assert Segments(b)[nb] == Decimal(b.nanos);
    if nb < na {
      assert Segments(a)[nb] == Split(a.eventId)[nb];
      assert IsStamp(Split(a.eventId)[nb]);
    }
    SameParts(a, b);
  }

  lemma OneSegmentEach(id: Identity)
    requires NoPipe(id.moduleName) && NoPipe(id.eventType) && NoPipe(id.tenantId) && NoPipe(id.severity)
      && NoPipe(id.status)
    ensures Tail(id) == [id.moduleName, id.eventType, id.tenantId, id.severity, id.status]
  {
    SplitNoPipe(id.moduleName);
    SplitNoPipe(id.eventType);
    SplitNoPipe(id.tenantId);
    SplitNoPipe(id.severity);
    SplitNoPipe(id.status);
  }

  lemma SameParts(a: Identity, b: Identity)
    requires Segments(a) == Segments(b) && |Split(b.eventId)| >= |Split(a.eventId)|
    requires Tail(a) == [a.moduleName, a.eventType, a.tenantId, a.severity, a.status]
    ensures a == b
  {
    hide Split, Decimal;
    var sa, sb := Split(a.eventId), Split(b.eventId);
    assert |Tail(b)| >= 5;
    assert |sa| == |sb| && |Tail(b)| == 5;
    assert Segments(a)[..|sa|] == sa && Segments(b)[..|sb|] == sb;
    JoinSplit(a.eventId);
    JoinSplit(b.eventId);
    assert Segments(a)[|sa|] == Decimal(a.nanos) && Segments(b)[|sb|] == Decimal(b.nanos);
    DecimalInjective(a.nanos, b.nanos);
    assert Segments(a)[|sa| + 1..] == Tail(a) && Segments(b)[|sb| + 1..] == Tail(b);
    FiveSegments(b);
    OneSegmentEach(b);
  }

  lemma FiveSegments(id: Identity)
    requires |Tail(id)| == 5
    ensures NoPipe(id.moduleName) && NoPipe(id.eventType) && NoPipe(id.tenantId) && NoPipe(id.severity)
      && NoPipe(id.status)
  {
    hide Split;
    SplitNoPipe(id.moduleName);
    SplitNoPipe(id.eventType);
    SplitNoPipe(id.tenantId);
    SplitNoPipe(id.severity);
    SplitNoPipe(id.status);
  }

  lemma BarAssoc(a: string, b: string, c: string)
    ensures Bar(Bar(a, b), c) == Bar(a, Bar(b, c))
  {
    assert (a + [PIPE] + b) + [PIPE] + c == a + [PIPE] + (b + [PIPE] + c);
  }

  /** A pipe inside a field lets part of it move to the field next to it. */
  lemma FieldCollision(a: Identity) returns (b: Identity)
    requires !(NoPipe(a.moduleName) && NoPipe(a.eventType) && NoPipe(a.tenantId) && NoPipe(a.severity)
      && NoPipe(a.status))
    ensures b != a && b.nanos == a.nanos && Canonical(b) == Canonical(a)
  {
    var c1 := Bar(a.eventId, Decimal(a.nanos));
    var c2 := Bar(c1, a.moduleName);
    var c3 := Bar(c2, a.eventType);
    var c4 := Bar(c3, a.tenantId);
    if !NoPipe(a.moduleName) {
      var x, y := CutAtPipe(a.moduleName);
      Shift(c1, x, y, a.eventType);
      b := a.(moduleName := x, eventType := Bar(y, a.eventType));
    } else if !NoPipe(a.eventType) {
      var x, y := CutAtPipe(a.eventType);
      Shift(c2, x, y, a.tenantId);
      b := a.(eventType := x, tenantId := Bar(y, a.tenantId));
    } else if !NoPipe(a.tenantId) {
      var x, y := CutAtPipe(a.tenantId);
      Shift(c3, x, y, a.severity);
      b := a.(tenantId := x, severity := Bar(y, a.severity));
    } else if !NoPipe(a.severity) {
      var x, y := CutAtPipe(a.severity);
      Shift(c4, x, y, a.status);
      b := a.(severity := x, status := Bar(y, a.status));
    } else {
      var x, y := CutAtPipe(a.status);
      Shift(c4, a.severity, x, y);
      BarAssoc(Bar(c4, a.severity), x, y);
      BarAssoc(c4, a.severity, x);
      b := a.(severity := Bar(a.severity, x), status := y);
    }
  }

  lemma Shift(c: string, x: string, y: string, next: string)
    ensures Bar(Bar(c, Bar(x, y)), next) == Bar(Bar(c, x), Bar(y, next))
  {
    BarAssoc(c, x, y);
    BarAssoc(Bar(c, x), y, next);
  }

  /** A numeral inside the event ID lets the timestamp move there. */
  lemma StampCollision(a: Identity, i: nat, n: int) returns (b: Identity)
    requires 0 < i < |Split(a.eventId)| && Split(a.eventId)[i] == Decimal(n)
    ensures b != a && b.nanos == n && Canonical(b) == Canonical(a)
  {
    hide Split, Decimal;
    var segments := Split(a.eventId);
    JoinSplit(a.eventId);
    var x, stamp, d := Join(segments[..i]), Decimal(n), Decimal(a.nanos);
    assert segments == segments[..i] + segments[i..];
    JoinConcat(segments[..i], segments[i..]);
    if i + 1 == |segments| {
      assert segments[i..] == [stamp];
      b := a.(eventId := x, nanos := n, moduleName := Bar(d, a.moduleName));
      assert a.eventId == Bar(x, stamp);
      BarAssoc(Bar(x, stamp), d, a.moduleName);
    } else {
      assert segments[i..] == [stamp] + segments[i + 1..];
      JoinConcat([stamp], segments[i + 1..]);
      var y := Join(segments[i + 1..]);
      b := a.(eventId := x, nanos := n, moduleName := Bar(y, Bar(d, a.moduleName)));
      assert a.eventId == Bar(x, Bar(stamp, y));
      BarAssoc(x, stamp, y);
      BarAssoc(Bar(x, stamp), y, d);
      BarAssoc(Bar(x, stamp), Bar(y, d), a.moduleName);
      BarAssoc(y, d, a.moduleName);
    }
  }

  /**
   The canonical string determines the seven fields of an event if and only if the
   event is unambiguous.
   */
  lemma CanonicalInjectiveIff(a: Identity)
    requires InRange(a.nanos)
    ensures (forall b: Identity :: InRange(b.nanos) && Canonical(b) == Canonical(a) ==> b == a) <==> Unambiguous(a)
  {
    hide Canonical;
    if Unambiguous(a) {
      forall b: Identity | InRange(b.nanos) && Canonical(b) == Canonical(a)
        ensures b == a
      {
        Identified(a, b);
      }
    } else {
      var b := Collision(a);
      assert InRange(b.nanos) && Canonical(b) == Canonical(a) && b != a;
    }
  }

  lemma Collision(a: Identity) returns (b: Identity)
    requires InRange(a.nanos) && !Unambiguous(a)
    ensures InRange(b.nanos) && b != a && Canonical(b) == Canonical(a)
  {
    hide Canonical, Split, Decimal, NoPipe;
    if NoPipe(a.moduleName) && NoPipe(a.eventType) && NoPipe(a.tenantId) && NoPipe(a.severity) && NoPipe(a.status) {
      var i :| 0 < i < |Split(a.eventId)| && IsStamp(Split(a.eventId)[i]);
      var n :| InRange(n) && Split(a.eventId)[i] == Decimal(n);
      b := StampCollision(a, i, n);
    } else {
      b := FieldCollision(a);
    }
  }

  /** Two events of one key have the same seal exactly when they are the same in the seven fields. */
  lemma TamperingDetected(signer: Signer, e: BastionEvent, altered: BastionEvent)
    requires signer.Verify(e) && altered.signature == e.signature
    requires Unambiguous(IdentityOf(e))
    requires signer.Compute(altered) == signer.Compute(e) ==> Canonical(IdentityOf(altered)) == Canonical(IdentityOf(e))
    ensures signer.Verify(altered) <==>
      && altered.eventId == e.eventId && Codec.UnixNano(altered.timestamp) == Codec.UnixNano(e.timestamp)
      && altered.moduleName == e.moduleName && altered.eventType == e.eventType && altered.tenantId == e.tenantId
      && altered.severity == e.severity && altered.status == e.status
  {
    hide Canonical, Unambiguous;
    if signer.Verify(altered) {
      Identified(IdentityOf(e), IdentityOf(altered));
    }
  }

  /** With a pipe in a field an altered event can keep its seal. */
  lemma TamperingMissed(signer: Signer)
    requires NonEmptyMacs(signer.mac)
    ensures var e := ZERO_EVENT.(eventId := "e", moduleName := "vault|read", eventType := "done", status := "passed");
      var altered := signer.Sign(e).(moduleName := "vault", eventType := "read|done");
      signer.Verify(altered) && IdentityOf(altered) != IdentityOf(e)
  {
    var e := ZERO_EVENT.(eventId := "e", moduleName := "vault|read", eventType := "done", status := "passed");
    var altered := signer.Sign(e).(moduleName := "vault", eventType := "read|done");
    assert Bar("vault", "read") == "vault|read" && Bar("read", "done") == "read|done";
    Shift(Bar(e.eventId, Decimal(Codec.UnixNano(e.timestamp))), "vault", "read", "done");
  }
}
