/** Command signing. */
module Signing {
  // Command signing: the control plane signs the canonical envelope, the agent
  // rebuilds and canonicalizes it from the raw JSON it received. HMAC-SHA256
  // (RFC 2104) is a parameter.

  import opened Text
  import opened Json
  import opened JsonText
  import opened JsonReader
  import opened CanonicalJson
  import opened CanonicalLaws
  import opened ParsedNumbers
  import opened Options

  type Byte = x: int | 0 <= x < 256
  type Mac = (seq<Byte>, string) -> seq<Byte>

  // ------------------------------------------------------------------ hex

  function HexEncode(bytes: seq<Byte>): string {
    if bytes == [] then ""
    else [HexDigit(bytes[0] / 16), HexDigit(bytes[0] % 16)] + HexEncode(bytes[1..])
  }

  /** Rust's `hex::decode`: all or nothing. */
  function HexDecode(s: string): Option<seq<Byte>> {
    if s == "" then Some([])
    else if |s| == 1 then None
    else
      var high, low, rest := HexValue(s[0]), HexValue(s[1]), HexDecode(s[2..]);
      if high.Some? && low.Some? && rest.Some? then Some([high.value * 16 + low.value] + rest.value)
      else None
  }

  /** Node's `Buffer.from(s, 'hex')`: stops at the first pair that is not hex. */
  function BufferFromHex(s: string): seq<Byte> {
    if |s| < 2 then []
    else
      var high, low := HexValue(s[0]), HexValue(s[1]);
      if high.Some? && low.Some? then [high.value * 16 + low.value] + BufferFromHex(s[2..]) else []
  }

  lemma {:induction false} HexRoundTrip(bytes: seq<Byte>)
    ensures HexDecode(HexEncode(bytes)) == Some(bytes)
    ensures BufferFromHex(HexEncode(bytes)) == bytes
  {
    if bytes != [] {
      HexRoundTrip(bytes[1..]);
      var s := HexEncode(bytes);
      assert s[2..] == HexEncode(bytes[1..]);
      HexDigitReads(bytes[0] / 16);
      HexDigitReads(bytes[0] % 16);
      assert bytes == [bytes[0]] + bytes[1..];
    }
  }

  /** On a valid key the two decoders agree. */
  lemma {:induction false} DecodersAgree(s: string)
    requires HexDecode(s).Some?
    ensures BufferFromHex(s) == HexDecode(s).value
    decreases |s|
  {
    if s != "" { DecodersAgree(s[2..]); }
  }

  // --------------------------------------------------------------- signing

  datatype Command = Command(id: string, nodeId: string, payload: Json, timeoutMs: int, issuedAt: string)

  function FiveFields(id: Json, nodeId: Json, payload: Json, timeoutMs: Json, issuedAt: Json): Json {
    Obj([Field("id", id), Field("nodeId", nodeId), Field("payload", payload),
         Field("timeoutMs", timeoutMs), Field("issuedAt", issuedAt)])
  }

  function Envelope(c: Command): Json {
    FiveFields(Str(c.id), Str(c.nodeId), c.payload, Int(c.timeoutMs), Str(c.issuedAt))
  }

  /** `signCommand` */
  function SignCommand(mac: Mac, c: Command, hexKey: string): string {
    HexEncode(mac(BufferFromHex(hexKey), Canonical(Enumeration, Envelope(c))))
  }

  /** `verifyCommandSignature`, the control plane's own check. */
  predicate VerifyCommandSignature(mac: Mac, c: Command, signature: string, hexKey: string) {
    BufferFromHex(SignCommand(mac, c, hexKey)) == BufferFromHex(signature)
  }

  datatype Verdict = Accepted | MalformedCommand | BadKey | BadSignature | Mismatch

  /** `signable_from_raw`: exactly the five signed fields, as received. */
  function SignableFromRaw(raw: Json): Option<Json> {
    if !raw.Obj? then None
    else
      var id, nodeId := Lookup(raw.fields, "id"), Lookup(raw.fields, "nodeId");
      var payload, timeoutMs := Lookup(raw.fields, "payload"), Lookup(raw.fields, "timeoutMs");
      var issuedAt := Lookup(raw.fields, "issuedAt");
      if id.Some? && nodeId.Some? && payload.Some? && timeoutMs.Some? && issuedAt.Some? then
        Some(FiveFields(id.value, nodeId.value, payload.value, timeoutMs.value, issuedAt.value))
      else None
  }

  function SignatureOf(raw: Json): Option<string> {
    if !raw.Obj? then None
    else
      var s := Lookup(raw.fields, "signature");
      if s.Some? && s.value.Str? then Some(s.value.s) else None
  }

  /** `verify_command` */
  function VerifyCommand(mac: Mac, raw: Json, hexKey: string): Verdict {
    var signable, signature := SignableFromRaw(raw), SignatureOf(raw);
    if signable.None? || signature.None? then MalformedCommand
    else
      var key, tag := HexDecode(hexKey), HexDecode(signature.value);
      if key.None? then BadKey
      else if tag.None? then BadSignature
      else if mac(key.value, Canonical(CodePoints, signable.value)) == tag.value then Accepted
      else Mismatch
  }

  // ----------------------------------------- what storage and the wire may do

  /** The payload as it comes back from storage and over the wire: `undefined`
      members are gone, `undefined` items are null, keys stand in any order. */
  ghost predicate StoredAs(payload: Json, stored: Json) {
    WellFormed(stored) && Same(stored, Visible(CodePoints, payload))
  }

  /** A raw command that carries `c`'s five fields, its payload as stored, and a
      signature; any other fields may stand around them. */
  ghost predicate Carries(raw: Json, c: Command, signature: string) {
    && SignableFromRaw(raw).Some?
    && (exists stored :: StoredAs(c.payload, stored)
          && SignableFromRaw(raw)
             == Some(FiveFields(Str(c.id), Str(c.nodeId), stored, Int(c.timeoutMs), Str(c.issuedAt))))
    && SignatureOf(raw) == Some(signature)
  }

  ghost predicate Signable(c: Command) {
    WellFormed(c.payload) && !c.payload.Undefined?
  }

  lemma VisibleTwice(order: Order, v: Json)
    ensures Visible(order, Visible(CodePoints, v)) == Visible(order, v)
    decreases v, 1
  {
    hide VisibleItems, VisibleFields;
    VisibleUnfolds(order, v);
    VisibleUnfolds(CodePoints, v);
    VisibleUnfolds(order, Visible(CodePoints, v));
    if v.Arr? {
      VisibleItemsTwice(order, v.items);
    } else if v.Obj? {
      VisibleFieldsTwice(order, v.fields);
    }
  }

  lemma {:induction false} VisibleItemsTwice(order: Order, items: seq<Json>)
    ensures VisibleItems(order, VisibleItems(CodePoints, items)) == VisibleItems(order, items)
    decreases items, 0
  {
    hide Visible;
    if items != [] {
      VisibleTwice(order, items[0]);
      VisibleItemsTwice(order, items[1..]);
      assert VisibleItems(CodePoints, items)[1..] == VisibleItems(CodePoints, items[1..]);
    }
  }

  lemma {:induction false} VisibleFieldsTwice(order: Order, fs: seq<Field>)
    ensures VisibleFields(order, VisibleFields(CodePoints, fs)) == VisibleFields(order, fs)
    decreases fs, 0
  {
    hide Visible;
    if fs != [] {
      VisibleTwice(order, fs[0].value);
      VisibleFieldsTwice(order, fs[1..]);
      VisibleDefined(CodePoints, fs[0].value);
      if Shows(CodePoints, fs[0]) {
        assert VisibleFields(CodePoints, fs)[1..] == VisibleFields(CodePoints, fs[1..]);
      } else {
        assert VisibleFields(CodePoints, fs) == VisibleFields(CodePoints, fs[1..]);
      }
    }
  }

  /** The five protocol fields add nothing that could break portability. */
  lemma EnvelopePortable(id: string, nodeId: string, payload: Json, timeoutMs: int, issuedAt: string)
    ensures var e := FiveFields(Str(id), Str(nodeId), payload, Int(timeoutMs), Str(issuedAt));
            Portable(e) <==> Portable(payload)
  {
    hide KeyLess, OrdinaryKey;
    var e := FiveFields(Str(id), Str(nodeId), payload, Int(timeoutMs), Str(issuedAt));
    var fs := e.fields;
    assert fs[2].value == payload;
    forall i | 0 <= i < |fs| ensures OrdinaryKey(fs[i].key) && fs[i].key != PROTO { FieldNameOrdinary(fs[i].key); }
    forall i, j | 0 <= i < |fs| && 0 <= j < |fs|
      ensures KeyLess(Enumeration, fs[i].key, fs[j].key) <==> KeyLess(CodePoints, fs[i].key, fs[j].key)
    {
      OrdinaryOrder(fs[i].key, fs[j].key);
    }
    assert Portable(Str(id)) && Portable(Str(nodeId)) && Portable(Int(timeoutMs)) && Portable(Str(issuedAt));
  }

  lemma FieldNameOrdinary(key: string)
    requires key == "id" || key == "nodeId" || key == "payload" || key == "timeoutMs" || key == "issuedAt"
    ensures OrdinaryKey(key)
  {
    assert !IsDigit(key[0]);
  }

  lemma EnvelopeVisible(order: Order, c: Command)
    requires Signable(c)
    ensures Visible(order, Envelope(c))
            == FiveFields(Str(c.id), Str(c.nodeId), Visible(order, c.payload), Int(c.timeoutMs), Str(c.issuedAt))
    ensures WellFormed(Envelope(c))
  {
    hide Visible, WellFormed;
    var fs := Envelope(c).fields;
    VisibleUnfolds(order, Envelope(c));
    VisibleUnfolds(order, Str(c.id));
    VisibleUnfolds(order, Str(c.nodeId));
    VisibleUnfolds(order, Int(c.timeoutMs));
    VisibleUnfolds(order, Str(c.issuedAt));
    ShownFive(order, fs[0], fs[1], fs[2], fs[3], fs[4]);
    EnvelopeWellFormed(c.id, c.nodeId, c.payload, c.timeoutMs, c.issuedAt);
  }

  lemma ShownFive(order: Order, a: Field, b: Field, c: Field, d: Field, e: Field)
    requires Keeps(order, a.key) && Keeps(order, b.key) && Keeps(order, c.key) && Keeps(order, d.key)
    requires Keeps(order, e.key) && !a.value.Undefined? && !b.value.Undefined? && !c.value.Undefined?
    requires !d.value.Undefined? && !e.value.Undefined?
    ensures VisibleFields(order, [a, b, c, d, e])
            == [Field(a.key, Visible(order, a.value)), Field(b.key, Visible(order, b.value)),
                Field(c.key, Visible(order, c.value)), Field(d.key, Visible(order, d.value)),
                Field(e.key, Visible(order, e.value))]
  {
    hide VisibleFields, Visible;
    ShownOne(order, a, [b, c, d, e]);
    ShownOne(order, b, [c, d, e]);
    ShownOne(order, c, [d, e]);
    ShownOne(order, d, [e]);
    ShownOne(order, e, []);
    ShownNone(order);
    assert [a, b, c, d, e] == [a] + [b, c, d, e] && [b, c, d, e] == [b] + [c, d, e];
    assert [c, d, e] == [c] + [d, e] && [d, e] == [d] + [e] && [e] == [e] + [];
  }

  lemma ShownNone(order: Order)
    ensures VisibleFields(order, []) == []
  {}

  lemma ShownOne(order: Order, f: Field, rest: seq<Field>)
    requires Keeps(order, f.key) && !f.value.Undefined?
    ensures VisibleFields(order, [f] + rest)
            == [Field(f.key, Visible(order, f.value))] + VisibleFields(order, rest)
  {
    hide Visible;
    assert ([f] + rest)[1..] == rest;
  }

  lemma EnvelopeWellFormed(id: string, nodeId: string, payload: Json, timeoutMs: int, issuedAt: string)
    requires WellFormed(payload)
    ensures var e := FiveFields(Str(id), Str(nodeId), payload, Int(timeoutMs), Str(issuedAt));
            WellFormed(e)
  {
    var e := FiveFields(Str(id), Str(nodeId), payload, Int(timeoutMs), Str(issuedAt));
    forall i | 0 <= i < |e.fields| ensures WellFormed(e.fields[i].value) {}
  }

  lemma EnvelopeSame(c: Command, stored: Json)
    requires Signable(c) && StoredAs(c.payload, stored)
    ensures Same(FiveFields(Str(c.id), Str(c.nodeId), stored, Int(c.timeoutMs), Str(c.issuedAt)),
                 Visible(CodePoints, Envelope(c)))
  {
    hide Visible, WellFormed, StoredAs;
    EnvelopeVisible(CodePoints, c);
    StoredIsSame(c.payload, stored);
    SameFive(Str(c.id), Str(c.nodeId), stored, Visible(CodePoints, c.payload), Int(c.timeoutMs), Str(c.issuedAt));
  }

  lemma StoredIsSame(payload: Json, stored: Json)
    requires StoredAs(payload, stored)
    ensures Same(stored, Visible(CodePoints, payload)) && WellFormed(stored)
  {}

  lemma SameFive(id: Json, nodeId: Json, p: Json, q: Json, timeoutMs: Json, issuedAt: Json)
    requires Same(p, q)
    ensures Same(FiveFields(id, nodeId, p, timeoutMs, issuedAt), FiveFields(id, nodeId, q, timeoutMs, issuedAt))
  {
    var a, b := FiveFields(id, nodeId, p, timeoutMs, issuedAt), FiveFields(id, nodeId, q, timeoutMs, issuedAt);
    forall i | 0 <= i < |a.fields| ensures HasSame(a.fields[i], b.fields) {
      SameReflexive(a.fields[i].value);
      assert b.fields[i].key == a.fields[i].key && Same(a.fields[i].value, b.fields[i].value);
    }
  }

  lemma StorageKeepsCanonical(order: Order, v: Json)
    requires WellFormed(v)
    ensures var e := Visible(CodePoints, v);
            WellFormed(e) && Plain(e) && Canonical(order, e) == Canonical(order, v)
  {
    hide Visible, Canonical, Plain, WellFormed, Same, Tidy;
    VisibleIsTidy(CodePoints, v);
    TidyWellFormed(CodePoints, Visible(CodePoints, v));
    VisibleTwice(order, v);
    SameReflexive(Visible(order, v));
    CanonicalExactly(order, Visible(CodePoints, v), v);
  }

  /** What is signed: in either language the text is JSON, and says an object of the five
      fields and what is visible of the payload, in whatever order. */
  lemma SignedTextSays(order: Order, c: Command)
    requires Signable(c)
    ensures ReadJson(Canonical(order, Envelope(c))).Some?
    ensures Same(ReadJson(Canonical(order, Envelope(c))).value,
                 Obj([Field("id", Str(c.id)), Field("nodeId", Str(c.nodeId)),
                      Field("payload", Visible(order, c.payload)),
                      Field("timeoutMs", Int(c.timeoutMs)), Field("issuedAt", Str(c.issuedAt))]))
  {
    hide Visible, Canonical, WellFormed, Same, Sorted, Tidy, ReadJson;
    EnvelopeVisible(order, c);
    CanonicalIsRead(order, Envelope(c));
    VisibleIsTidy(order, Envelope(c));
    SortedIsSame(order, Visible(order, Envelope(c)));
  }

  /** The five fields as the agent reads them, when the payload arrives as `stored`. */
  function Received(float: Spelling, c: Command, stored: Json): Json {
    AsParsed(float, FiveFields(Str(c.id), Str(c.nodeId), stored, Int(c.timeoutMs), Str(c.issuedAt)))
  }

  /** The two languages order the payload's keys alike and write the envelope's
      numbers alike. */
  ghost predicate Agreed(float: Spelling, c: Command) {
    Portable(Visible(CodePoints, c.payload)) && Steady(float, Visible(CodePoints, Envelope(c)))
  }

  /** The text the agent authenticates is the text that was signed, exactly when
      the two languages agree on keys and numbers. */
  lemma SameTextExactly(float: Spelling, c: Command, stored: Json)
    requires Signable(c) && StoredAs(c.payload, stored) && WritesFloats(float)
    ensures Canonical(CodePoints, Received(float, c, stored)) == Canonical(Enumeration, Envelope(c))
            <==> Agreed(float, c)
  {
    hide Visible, Canonical, Plain, WellFormed, Same, Tidy, Portable, Steady, StoredAs, OnNumbers, WritesFloats;
    var sent := FiveFields(Str(c.id), Str(c.nodeId), stored, Int(c.timeoutMs), Str(c.issuedAt));
    var e := Visible(CodePoints, Envelope(c));
    EnvelopeVisible(CodePoints, c);
    StoredIsSame(c.payload, stored);
    EnvelopeWellFormed(c.id, c.nodeId, stored, c.timeoutMs, c.issuedAt);
    EnvelopeSame(c, stored);
    StorageKeepsCanonical(Enumeration, Envelope(c));
    PlainVisible(e);
    SameKeepsPlain(sent, e);
    ReceivedAlike(float, sent, e);
    ParsedAgreesExactly(float, e);
    EnvelopePortable(c.id, c.nodeId, Visible(CodePoints, c.payload), c.timeoutMs, c.issuedAt);
  }

  lemma ReceivedAlike(float: Spelling, v: Json, w: Json)
    requires WritesFloats(float) && Same(v, w) && WellFormed(v) && WellFormed(w) && Plain(v) && Plain(w)
    ensures Canonical(CodePoints, AsParsed(float, v)) == Canonical(CodePoints, AsParsed(float, w))
  {
    hide Visible, Canonical, Plain, WellFormed, Same, OnNumbers, WritesFloats;
    var f := Reader(float);
    ReaderToScalars(float);
    SameOnNumbers(f, v, w);
    OnNumbersTidy(f, v);
    OnNumbersTidy(f, w);
    PlainVisible(AsParsed(float, v));
    PlainVisible(AsParsed(float, w));
    CanonicalExactly(CodePoints, AsParsed(float, v), AsParsed(float, w));
  }

  lemma PlainVisible(v: Json)
    requires Plain(v)
    ensures Visible(CodePoints, v) == v
    decreases v, 1
  {
    if v.Arr? { PlainItemsVisible(v.items); } else if v.Obj? { PlainFieldsVisible(v.fields); }
  }

  lemma {:induction false} PlainItemsVisible(items: seq<Json>)
    requires forall i :: 0 <= i < |items| ==> Plain(items[i])
    ensures VisibleItems(CodePoints, items) == items
    decreases items, 0
  {
    hide Plain, Visible;
    if items != [] {
      PlainVisible(items[0]);
      PlainItemsVisible(items[1..]);
      assert items == [items[0]] + items[1..];
    }
  }

  lemma {:induction false} PlainFieldsVisible(fs: seq<Field>)
    requires forall i :: 0 <= i < |fs| ==> Plain(fs[i].value)
    ensures VisibleFields(CodePoints, fs) == fs
    decreases fs, 0
  {
    hide Visible;
    if fs != [] {
      PlainVisible(fs[0].value);
      PlainFieldsVisible(fs[1..]);
      PlainKinds(fs[0].value);
      assert fs == [fs[0]] + fs[1..];
    }
  }

  lemma SameKeepsPlain(v: Json, w: Json)
    requires Same(v, w) && Plain(w)
    ensures Plain(v)
    decreases v
  {
    if v.Arr? {
      forall i | 0 <= i < |v.items| ensures Plain(v.items[i]) { SameKeepsPlain(v.items[i], w.items[i]); }
    } else if v.Obj? {
      forall i | 0 <= i < |v.fields| ensures Plain(v.fields[i].value) {
        assert HasSame(v.fields[i], w.fields);
        var j :| 0 <= j < |w.fields| && w.fields[j].key == v.fields[i].key
                 && Same(v.fields[i].value, w.fields[j].value);
        SameKeepsPlain(v.fields[i].value, w.fields[j].value);
      }
    }
  }

  // ------------------------------------------------------------ main results

  lemma {:induction false} IndexParsed(f: Json -> Json, fs: seq<Field>, key: string)
    ensures IndexOfKey(OnFields(f, fs), key) == IndexOfKey(fs, key)
  {
    hide OnNumbers;
    if fs != [] {
      IndexParsed(f, fs[1..], key);
      assert OnFields(f, fs)[1..] == OnFields(f, fs[1..]);
    }
  }

  lemma LookupParsed(f: Json -> Json, fs: seq<Field>, key: string)
    ensures Lookup(OnFields(f, fs), key)
            == if Lookup(fs, key).None? then None else Some(OnNumbers(f, Lookup(fs, key).value))
  {
    hide OnNumbers, OnFields, IndexOfKey;
    OnFieldsAt(f, fs);
    IndexParsed(f, fs, key);
  }

  /** Reading the raw command changes neither which fields it has nor its signature. */
  lemma FieldsParsed(float: Spelling, raw: Json)
    ensures SignableFromRaw(AsParsed(float, raw))
            == if SignableFromRaw(raw).None? then None else Some(AsParsed(float, SignableFromRaw(raw).value))
    ensures SignatureOf(raw).Some? ==> SignatureOf(AsParsed(float, raw)) == SignatureOf(raw)
  {
    hide OnNumbers, Lookup;
    var f := Reader(float);
    OnNumbersUnfolds(f, raw);
    if raw.Obj? {
      LookupParsed(f, raw.fields, "id");
      LookupParsed(f, raw.fields, "nodeId");
      LookupParsed(f, raw.fields, "payload");
      LookupParsed(f, raw.fields, "timeoutMs");
      LookupParsed(f, raw.fields, "issuedAt");
      LookupParsed(f, raw.fields, "signature");
      if SignatureOf(raw).Some? { OnNumbersUnfolds(f, Str(SignatureOf(raw).value)); }
      if SignableFromRaw(raw).Some? { FiveParsed(f, SignableFromRaw(raw).value); }
    }
  }

  lemma FiveParsed(f: Json -> Json, v: Json)
    requires v.Obj? && |v.fields| == 5
    ensures OnNumbers(f, v)
            == Obj([OnField(f, v.fields[0]), OnField(f, v.fields[1]), OnField(f, v.fields[2]),
                    OnField(f, v.fields[3]), OnField(f, v.fields[4])])
  {
    hide OnNumbers, OnField;
    OnNumbersUnfolds(f, v);
    OnFieldsAt(f, v.fields);
  }

  /** A command that carries the signature made for `c` is accepted when the text is
      the same, and with a collision-free tag only then. */
  lemma AcceptedByText(mac: Mac, float: Spelling, c: Command, hexKey: string, raw: Json) returns (stored: Json)
    requires Signable(c) && HexDecode(hexKey).Some? && WritesFloats(float)
    requires Carries(raw, c, SignCommand(mac, c, hexKey))
    ensures StoredAs(c.payload, stored)
    ensures VerifyCommand(mac, AsParsed(float, raw), hexKey) == Accepted
            <==> mac(HexDecode(hexKey).value, Canonical(CodePoints, Received(float, c, stored)))
                 == mac(HexDecode(hexKey).value, Canonical(Enumeration, Envelope(c)))
  {
    hide Canonical, Signable, StoredAs, SignableFromRaw, SignatureOf, FiveFields, HexEncode, HexDecode, OnNumbers;
    stored :| StoredAs(c.payload, stored)
              && SignableFromRaw(raw)
                 == Some(FiveFields(Str(c.id), Str(c.nodeId), stored, Int(c.timeoutMs), Str(c.issuedAt)));
    FieldsParsed(float, raw);
    DecodersAgree(hexKey);
    HexRoundTrip(mac(BufferFromHex(hexKey), Canonical(Enumeration, Envelope(c))));
  }

  /** Every signature made for a payload that the two languages agree on is accepted
      by the agent, whatever storage did to key order and `undefined`, and whatever
      other fields the raw command has. */
  lemma SignedIsAccepted(mac: Mac, float: Spelling, c: Command, hexKey: string, raw: Json)
    requires Signable(c) && HexDecode(hexKey).Some? && WritesFloats(float)
    requires Carries(raw, c, SignCommand(mac, c, hexKey))
    requires Agreed(float, c)
    ensures VerifyCommand(mac, AsParsed(float, raw), hexKey) == Accepted
  {
    hide Agreed, Canonical, Signable, StoredAs, VerifyCommand, Carries, HexDecode, OnNumbers, Received, WritesFloats;
    var stored := AcceptedByText(mac, float, c, hexKey, raw);
    SameTextExactly(float, c, stored);
  }

  /** The tag tells messages apart under this key. */
  ghost predicate CollisionFree(mac: Mac, key: seq<Byte>) {
    forall x: string, y: string :: mac(key, x) == mac(key, y) ==> x == y
  }

  /** With a collision-free tag, that agreement is exactly what acceptance takes. */
  lemma AcceptedExactly(mac: Mac, float: Spelling, c: Command, hexKey: string, raw: Json)
    requires Signable(c) && HexDecode(hexKey).Some? && CollisionFree(mac, HexDecode(hexKey).value)
    requires WritesFloats(float) && Carries(raw, c, SignCommand(mac, c, hexKey))
    ensures VerifyCommand(mac, AsParsed(float, raw), hexKey) == Accepted <==> Agreed(float, c)
  {
    hide Agreed, Canonical, Signable, StoredAs, VerifyCommand, Carries, HexDecode, OnNumbers, Received, WritesFloats;
    var stored := AcceptedByText(mac, float, c, hexKey, raw);
    SameTextExactly(float, c, stored);
  }

  /** A value accepted under the signature made for `c` says the same as what was
      signed, up to key order: nothing signed can be altered. */
  lemma AcceptedIsAuthentic(mac: Mac, c: Command, hexKey: string, read: Json)
    requires Signable(c) && HexDecode(hexKey).Some? && CollisionFree(mac, HexDecode(hexKey).value)
    requires SignatureOf(read) == Some(SignCommand(mac, c, hexKey))
    requires SignableFromRaw(read).Some? ==>
      WellFormed(SignableFromRaw(read).value) && Plain(SignableFromRaw(read).value)
    requires VerifyCommand(mac, read, hexKey) == Accepted
    ensures Same(SignableFromRaw(read).value, Visible(Enumeration, Envelope(c)))
  {
    hide Visible, Stringify, SignableFromRaw, SignatureOf, HexEncode, HexDecode, Same, WellFormed, Plain, Sorted, Tidy;
    var signable, e := SignableFromRaw(read).value, Visible(Enumeration, Envelope(c));
    DecodersAgree(hexKey);
    HexRoundTrip(mac(BufferFromHex(hexKey), Canonical(Enumeration, Envelope(c))));
    EnvelopeVisible(CodePoints, c);
    CanonicalShows(Enumeration, Envelope(c));
    VisibleIsTidy(Enumeration, Envelope(c));
    TidyWellFormed(Enumeration, e);
    SameTextSameValue(signable, e);
  }

  /** The verifier's text of one value and the signer's of another are equal only if
      the values are the same up to key order. */
  lemma SameTextSameValue(v: Json, w: Json)
    requires WellFormed(v) && Plain(v) && Tidy(Enumeration, w) && Plain(w)
    requires Canonical(CodePoints, v) == Canonical(Enumeration, w)
    ensures Same(v, w)
  {
    hide Stringify, Sorted, Plain, WellFormed, Tidy, Same;
    var x := Sorted(CodePoints, v);
    TidyWellFormed(Enumeration, w);
    SortedIsPlain(CodePoints, v);
    SortedIsPlain(Enumeration, w);
    StringifyInjective(x, Sorted(Enumeration, w));
    TidyUnderCodePoints(v);
    TidyUnderCodePoints(w);
    SortedIsSame(CodePoints, v);
    SortedIsSame(Enumeration, w);
    SameImpliesSorted(CodePoints, x, v);
    SameImpliesSorted(CodePoints, x, w);
    SortedImpliesSame(CodePoints, v, w);
  }

  /** The command row's initial signature, the empty text, is never accepted. */
  lemma UnsignedIsRejected(mac: Mac, hexKey: string, raw: Json)
    requires forall key, text :: mac(key, text) != []
    requires SignatureOf(raw) == Some("")
    ensures VerifyCommand(mac, raw, hexKey) != Accepted
  {
    assert HexDecode("") == Some([]);
  }

  lemma OwnSignatureVerifies(mac: Mac, c: Command, hexKey: string, signature: string)
    ensures VerifyCommandSignature(mac, c, SignCommand(mac, c, hexKey), hexKey)
    ensures VerifyCommandSignature(mac, c, signature, hexKey)
            <==> BufferFromHex(signature) == mac(BufferFromHex(hexKey), Canonical(Enumeration, Envelope(c)))
  {
    HexRoundTrip(mac(BufferFromHex(hexKey), Canonical(Enumeration, Envelope(c))));
  }
}
