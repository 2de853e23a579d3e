/** The bytes that are signed for a remote action, built by the server and again by the agent. */
module SigningPayload {
  import opened Wrappers
  import opened Numerals

  /** An order as the agent receives it; the identifiers are parsed UUIDs. */
  datatype Order = Order(
    id: int, organization: int, device: int, nonce: int, name: string, version: int, keyVersion: int,
    issuedAt: string, expiresAt: string, digest: string, signature: string, parameters: string)

  /** An action as the server keeps it; instants are UTC seconds. */
  datatype Command = Command(
    id: int, organization: int, device: int, nonce: int, name: string, keyVersion: Option<int>,
    issuedAt: int, expiresAt: int, parameters: string)

  /** What is left abstract: `strftime` and `strptime` for `%Y-%m-%dT%H:%M:%SZ`, SHA-256 in hexadecimal,
      and whether a text is the canonical JSON of an object of strings, booleans and integers. */
  datatype Codec = Codec(
    format: int -> string, parse: string -> Option<int>, sha256: string -> string, canonical: string -> bool)

  /** Formatted instants parse back, whatever parses has no newline, and SHA-256 is injective. */
  ghost predicate Ideal(c: Codec) {
    && (forall t :: c.parse(c.format(t)) == Some(t))
    && (forall s :: c.parse(s).Some? ==> '\n' !in s)
    && (forall s, t :: c.sha256(s) == c.sha256(t) ==> s == t)
  }

  const CATALOG := {"restart_service", "flush_dns", "collect_extended_diagnostics", "reboot_system"}

  /** `"\n".join(fields)`. */
  function Join(fields: seq<string>): string {
    if fields == [] then "" else if |fields| == 1 then fields[0] else fields[0] + "\n" + Join(fields[1..])
  }

  predicate Identified(id: int, organization: int, device: int, nonce: int) {
    IsUuid(id) && IsUuid(organization) && IsUuid(device) && IsUuid(nonce)
  }

  function Fields(o: Order): seq<string>
    requires Identified(o.id, o.organization, o.device, o.nonce) && o.keyVersion >= 0
  {
    ["nexus-action:v1", UuidText(o.id), UuidText(o.organization), UuidText(o.device), o.name, UuidText(o.nonce),
     Decimal(o.keyVersion), o.issuedAt, o.expiresAt, o.parameters]
  }

  /** `build_signing_payload` of the agent. */
  function Payload(o: Order): string
    requires Identified(o.id, o.organization, o.device, o.nonce) && o.keyVersion >= 0
  {
    Join(Fields(o))
  }

  /** `build_action_signing_payload` of the server; None where it raises. */
  function ServerPayload(c: Codec, a: Command): Option<string>
    requires Identified(a.id, a.organization, a.device, a.nonce) && (a.keyVersion.Some? ==> a.keyVersion.value >= 0)
  {
    if a.keyVersion.None? then None
    else Some(Join(["nexus-action:v1", UuidText(a.id), UuidText(a.organization), UuidText(a.device), a.name,
                    UuidText(a.nonce), Decimal(a.keyVersion.value), c.format(a.issuedAt), c.format(a.expiresAt),
                    a.parameters]))
  }

  /** The order the agent reads out of the polling response for a signed action. */
  function Transmitted(c: Codec, a: Command, signature: string): Order
    requires Identified(a.id, a.organization, a.device, a.nonce) && a.keyVersion.Some? && a.keyVersion.value >= 0
  {
    Order(a.id, a.organization, a.device, a.nonce, a.name, 1, a.keyVersion.value, c.format(a.issuedAt),
          c.format(a.expiresAt), c.sha256(ServerPayload(c, a).value), signature, a.parameters)
  }

  /** `validate_order`. */
  predicate Valid(c: Codec, o: Order) {
    && o.name in CATALOG
    && Identified(o.id, o.organization, o.device, o.nonce)
    && IsVersion4(o.id) && IsVersion4(o.organization) && IsVersion4(o.device) && IsVersion4(o.nonce)
    && o.version == 1 && o.keyVersion >= 1
    && c.canonical(o.parameters)
    && o.digest == c.sha256(Payload(o))
  }

  const FIVE_MINUTES := 300

  /** The window checks of `verify_order_signature`; yields the expiry instant. */
  function Window(c: Codec, o: Order, now: int, skew: nat): (r: Option<int>)
    ensures r.Some? ==> c.parse(o.issuedAt).Some? && c.parse(o.expiresAt) == r
  {
    var issued, expires := c.parse(o.issuedAt), c.parse(o.expiresAt);
    if issued.None? || expires.None? then None
    else if expires.value <= issued.value || expires.value - issued.value > FIVE_MINUTES
            || issued.value > now + skew || expires.value < now - skew then None
    else expires
  }

  // ------------------------------------------------------------- agreement

  /** Both sides build the same bytes for an action, and the agent accepts the order sent for it. */
  lemma BuildersAgree(c: Codec, a: Command, signature: string)
    requires Identified(a.id, a.organization, a.device, a.nonce) && a.keyVersion.Some? && a.keyVersion.value >= 1
    ensures Payload(Transmitted(c, a, signature)) == ServerPayload(c, a).value
    ensures Valid(c, Transmitted(c, a, signature)) <==>
            && a.name in CATALOG && c.canonical(a.parameters)
            && IsVersion4(a.id) && IsVersion4(a.organization) && IsVersion4(a.device) && IsVersion4(a.nonce)
  {
    hide IsVersion4, UuidText, Decimal;
  }

  /** The payload names its version first and carries the parameters last. */
  lemma PayloadFrame(o: Order)
    requires Identified(o.id, o.organization, o.device, o.nonce) && o.keyVersion >= 0
    ensures "nexus-action:v1\n" <= Payload(o)
    ensures |o.parameters| + 1 <= |Payload(o)| && Payload(o)[|Payload(o)| - |o.parameters| - 1..] == "\n" + o.parameters
  {
    hide UuidText, Decimal, IsUuid, Fits;
    var f := Fields(o);
    JoinEnds(f);
    assert f[9] == o.parameters && Join(f) == f[0] + "\n" + Join(f[1..]);
    hide Join;
  }

  lemma {:induction false} JoinEnds(f: seq<string>)
    requires |f| > 1
    ensures var last := f[|f| - 1];
            |last| + 1 <= |Join(f)| && Join(f)[|Join(f)| - |last| - 1..] == "\n" + last
  {
    var last := f[|f| - 1];
    if |f| > 2 {
      JoinEnds(f[1..]);
      var rest := Join(f[1..]);
      assert Join(f) == f[0] + "\n" + rest;
      assert Join(f)[|Join(f)| - |last| - 1..] == rest[|rest| - |last| - 1..];
    } else {
      assert Join(f) == f[0] + "\n" + Join(f[1..]) && Join(f[1..]) == last;
      assert Join(f) == f[0] + ("\n" + last);
    }
  }

  // ----------------------------------------------------------- unambiguity

  /** A newline-free first field ends at the first newline. */
  lemma FirstField(a: string, b: string, s: string, t: string)
    requires '\n' !in a && '\n' !in b && a + "\n" + s == b + "\n" + t
    ensures a == b && s == t
  {
    var x, y := a + "\n" + s, b + "\n" + t;
    assert x[|a|] == '\n' && forall i :: 0 <= i < |a| ==> x[i] == a[i] != '\n';
    assert y[|b|] == '\n' && forall i :: 0 <= i < |b| ==> y[i] == b[i] != '\n';
    assert x[..|a|] == a && y[..|b|] == b;
    assert x[|a| + 1..] == s && y[|b| + 1..] == t;
  }

  /** Lists of equal length whose fields, but for the last, have no newline are determined by their join. */
  lemma {:induction false} JoinInjective(f: seq<string>, g: seq<string>)
    requires |f| == |g| && Join(f) == Join(g)
    requires forall i :: 0 <= i < |f| - 1 ==> '\n' !in f[i] && '\n' !in g[i]
    ensures f == g
  {
    if |f| > 1 {
      FirstField(f[0], g[0], Join(f[1..]), Join(g[1..]));
      JoinInjective(f[1..], g[1..]);
      assert f == [f[0]] + f[1..] && g == [g[0]] + g[1..];
    } else if |f| == 1 {
      assert f == [f[0]] && g == [g[0]];
    }
  }

  lemma PlainText(x: int, n: nat)
    requires IsUuid(x)
    ensures '\n' !in UuidText(x) && '\n' !in Decimal(n)
  {
    DecimalShape(n);
    var h := Hex(x, 32);
    assert forall i :: 0 <= i < |h| ==> IsHexDigit(h[i]);
    hide Hex, Decimal;
  }

  /** A valid order with parsable timestamps has newlines in its last field at most. */
  lemma FieldsArePlain(c: Codec, o: Order)
    requires Ideal(c) && Valid(c, o) && c.parse(o.issuedAt).Some? && c.parse(o.expiresAt).Some?
    ensures forall i :: 0 <= i < 9 ==> '\n' !in Fields(o)[i]
  {
    hide UuidText, Decimal, IsUuid, IsVersion4, Join;
    PlainText(o.id, o.keyVersion);
    PlainText(o.organization, 0);
    PlainText(o.device, 0);
    PlainText(o.nonce, 0);
    PlainName(o.name);
    assert '\n' !in o.issuedAt && '\n' !in o.expiresAt;
    hide Ideal, Valid;
    PlainList(UuidText(o.id), UuidText(o.organization), UuidText(o.device), o.name, UuidText(o.nonce),
              Decimal(o.keyVersion), o.issuedAt, o.expiresAt, o.parameters);
  }

  lemma PlainList(a: string, b: string, c: string, d: string, e: string, f: string, g: string, h: string, last: string)
    requires '\n' !in a && '\n' !in b && '\n' !in c && '\n' !in d && '\n' !in e && '\n' !in f && '\n' !in g && '\n' !in h
    ensures forall i :: 0 <= i < 9 ==> '\n' !in ["nexus-action:v1", a, b, c, d, e, f, g, h, last][i]
  {
  }

  lemma PlainName(name: string)
    requires name in CATALOG
    ensures '\n' !in name
  {
  }

  /** What was signed determines the order: two orders that pass validation and timestamp parsing and
      have equal payloads differ in their signature at most. */
  lemma PayloadDeterminesOrder(c: Codec, o: Order, p: Order)
    requires Ideal(c) && Valid(c, o) && Valid(c, p) && Payload(o) == Payload(p)
    requires c.parse(o.issuedAt).Some? && c.parse(o.expiresAt).Some?
    requires c.parse(p.issuedAt).Some? && c.parse(p.expiresAt).Some?
    ensures o.(signature := p.signature) == p
  {
    FieldsArePlain(c, o);
    FieldsArePlain(c, p);
    JoinInjective(Fields(o), Fields(p));
    hide Join, IsVersion4;
    FieldsDetermine(o, p);
  }

  lemma FieldsDetermine(o: Order, p: Order)
    requires Identified(o.id, o.organization, o.device, o.nonce) && Identified(p.id, p.organization, p.device, p.nonce)
    requires o.keyVersion >= 0 && p.keyVersion >= 0 && Fields(o) == Fields(p)
    ensures o.id == p.id && o.organization == p.organization && o.device == p.device && o.nonce == p.nonce
    ensures o.name == p.name && o.keyVersion == p.keyVersion && o.parameters == p.parameters
    ensures o.issuedAt == p.issuedAt && o.expiresAt == p.expiresAt
  {
    var f, g := Fields(o), Fields(p);
    hide UuidText, Decimal, IsUuid;
    assert f[1] == g[1] && f[2] == g[2] && f[3] == g[3] && f[4] == g[4] && f[5] == g[5];
    assert f[6] == g[6] && f[7] == g[7] && f[8] == g[8] && f[9] == g[9];
    UuidTextInjective(o.id, p.id);
    UuidTextInjective(o.organization, p.organization);
    UuidTextInjective(o.device, p.device);
    UuidTextInjective(o.nonce, p.nonce);
    DecimalInjective(o.keyVersion, p.keyVersion);
  }
}
