/** Which operational events share an idempotency ledger row. */
module EventKeys {
  import opened Prelude
  import opened CanonicalJson
  import opened CanonicalMeaning
  import opened CanonicalEquality

  // An event after normalisation; timestamps are in their fixed ISO form.
  datatype Event = Event(
    eventType: Text,
    system: Text,
    service: Option<Text>,
    environment: Option<Text>,
    eventTs: Text,
    severity: Option<Text>,
    correlationKey: Option<Text>,
    metadata: Value)

  // A delivery identifier handed over by a trusted upstream, already sanitised.
  datatype Hint = Hint(namespace: Text, upstreamKey: Text)

  function Ascii(s: string): (t: Text)
    requires forall i :: 0 <= i < |s| ==> s[i] < '~'
    ensures |t| == |s| && forall i :: 0 <= i < |s| ==> t[i] == s[i] as int
  {
    seq(|s|, i requires 0 <= i < |s| => s[i] as int)
  }

  const BAR: CodeUnit := 124

  function Field(t: Option<Text>): Value {
    match t case None => Null case Some(s) => Str(s)
  }

  function FieldName(i: nat): Text
    requires i < 9
  {
    match i
    case 0 => Ascii("source")
    case 1 => Ascii("event_type")
    case 2 => Ascii("system")
    case 3 => Ascii("service")
    case 4 => Ascii("environment")
    case 5 => Ascii("event_ts")
    case 6 => Ascii("severity")
    case 7 => Ascii("correlation_key")
    case _ => Ascii("metadata")
  }

  function FieldValue(source: Text, e: Event, i: nat): Value
    requires i < 9
  {
    match i
    case 0 => Str(source)
    case 1 => Str(e.eventType)
    case 2 => Str(e.system)
    case 3 => Field(e.service)
    case 4 => Field(e.environment)
    case 5 => Str(e.eventTs)
    case 6 => Field(e.severity)
    case 7 => Field(e.correlationKey)
    case _ => e.metadata
  }

  /** The object fingerprinted for an event without a delivery identifier. */
  function Material(source: Text, e: Event): Value {
    Obj(seq(9, i requires 0 <= i < 9 => Entry(FieldName(i), FieldValue(source, e, i))))
  }

  /** Its fields, by name. */
  lemma MaterialIs(source: Text, e: Event)
    ensures Material(source, e).entries
         == [Entry(Ascii("source"), Str(source)), Entry(Ascii("event_type"), Str(e.eventType)), Entry(Ascii("system"), Str(e.system)),
             Entry(Ascii("service"), Field(e.service)), Entry(Ascii("environment"), Field(e.environment)),
             Entry(Ascii("event_ts"), Str(e.eventTs)), Entry(Ascii("severity"), Field(e.severity)),
             Entry(Ascii("correlation_key"), Field(e.correlationKey)), Entry(Ascii("metadata"), e.metadata)]
    ensures Field(None) == Null && forall s :: Field(Some(s)) == Str(s)
  {
  }

  /** The text whose hash is an event's idempotency key. */
  function KeyText(notAfter: Order, tenant: Text, source: Text, e: Event, hint: Option<Hint>): Text {
    Ascii("tenant=") + tenant + [BAR]
    + match hint
      case Some(h) => Ascii("source=") + source + Ascii("|ns=") + h.namespace + Ascii("|key=") + h.upstreamKey
      case None => Canonicalize(notAfter, Material(source, e))
  }

  // A ledger row is found by tenant, source and key together.
  datatype RowKey = RowKey(tenant: Text, source: Text, keyText: Text)

  function RowKeyOf(notAfter: Order, tenant: Text, source: Text, e: Event, hint: Option<Hint>): RowKey {
    RowKey(tenant, source, KeyText(notAfter, tenant, source, e, hint))
  }

  /** Every field agrees, metadata up to the order of object keys. */
  ghost predicate SameEvent(a: Event, b: Event) {
    && a.(metadata := Null) == b.(metadata := Null)
    && Meaning(a.metadata) == Meaning(b.metadata)
  }

  // Length and first two letters already tell the field names apart.
  function Signature(t: Text): int
    requires |t| > 1
  {
    1000 * |t| + t[0] + t[1]
  }

  lemma FieldSignatures(i: nat)
    requires i < 9
    ensures |FieldName(i)| > 1
    ensures Signature(FieldName(i)) == [6226, 10219, 6236, 7216, 11211, 8219, 8216, 15210, 8210][i]
  {
  }

  lemma MaterialFields(source: Text, e: Event)
    requires WellFormed(e.metadata)
    ensures WellFormed(Material(source, e))
  {
    forall i, j | 0 <= i < j < 9 ensures FieldName(i) != FieldName(j) {
      FieldSignatures(i);
      FieldSignatures(j);
    }
  }

  lemma {:induction false} EntriesAgree(x: seq<Entry>, y: seq<Entry>)
    requires |x| == |y| && DistinctKeys(x) && DistinctKeys(y)
    requires forall i :: 0 <= i < |x| ==> x[i].key == y[i].key
    ensures MeaningEntries(x) == MeaningEntries(y)
      <==> forall i :: 0 <= i < |x| ==> Meaning(x[i].value) == Meaning(y[i].value)
  {
    if MeaningEntries(x) == MeaningEntries(y) {
      forall i | 0 <= i < |x| ensures Meaning(x[i].value) == Meaning(y[i].value) {
        FieldMeaning(x, x[i]);
        FieldMeaning(y, y[i]);
      }
    } else if forall i :: 0 <= i < |x| ==> Meaning(x[i].value) == Meaning(y[i].value) {
      SameFieldsSameMeaning(x, y);
    }
  }

  lemma {:induction false} SameFieldsSameMeaning(x: seq<Entry>, y: seq<Entry>)
    requires |x| == |y| && forall i :: 0 <= i < |x| ==> x[i].key == y[i].key && Meaning(x[i].value) == Meaning(y[i].value)
    ensures MeaningEntries(x) == MeaningEntries(y)
  {
    if x != [] {
      SameFieldsSameMeaning(x[1..], y[1..]);
    }
  }

  ghost predicate FieldAgrees(s: Text, a: Event, b: Event, i: nat)
    requires i < 9
  {
    Meaning(FieldValue(s, a, i)) == Meaning(FieldValue(s, b, i))
  }

  lemma OptionalField(x: Option<Text>, y: Option<Text>)
    ensures Meaning(Field(x)) == Meaning(Field(y)) <==> x == y
  {
  }

  lemma {:induction false} FieldsDecide(s: Text, a: Event, b: Event)
    requires FieldAgrees(s, a, b, 1) && FieldAgrees(s, a, b, 2) && FieldAgrees(s, a, b, 3) && FieldAgrees(s, a, b, 4)
    requires FieldAgrees(s, a, b, 5) && FieldAgrees(s, a, b, 6) && FieldAgrees(s, a, b, 7) && FieldAgrees(s, a, b, 8)
    ensures SameEvent(a, b)
  {
    OptionalField(a.service, b.service);
    OptionalField(a.environment, b.environment);
    OptionalField(a.severity, b.severity);
    OptionalField(a.correlationKey, b.correlationKey);
  }

  lemma SameEventAgrees(s: Text, a: Event, b: Event, i: nat)
    requires i < 9 && SameEvent(a, b)
    ensures FieldAgrees(s, a, b, i)
  {
  }

  lemma MaterialAgrees(s: Text, a: Event, b: Event)
    requires WellFormed(a.metadata) && WellFormed(b.metadata)
    ensures Meaning(Material(s, a)) == Meaning(Material(s, b)) <==> forall i :: 0 <= i < 9 ==> FieldAgrees(s, a, b, i)
  {
    var x, y := Material(s, a).entries, Material(s, b).entries;
    MaterialFields(s, a);
    MaterialFields(s, b);
    EntriesAgree(x, y);
    forall i | 0 <= i < 9
      ensures FieldAgrees(s, a, b, i) == (Meaning(x[i].value) == Meaning(y[i].value))
    {
      assert x[i].value == FieldValue(s, a, i) && y[i].value == FieldValue(s, b, i);
    }
  }

  lemma EqualMaterial(s: Text, a: Event, b: Event)
    requires WellFormed(a.metadata) && WellFormed(b.metadata)
    ensures Meaning(Material(s, a)) == Meaning(Material(s, b)) <==> SameEvent(a, b)
  {
    MaterialAgrees(s, a, b);
    if SameEvent(a, b) {
      forall i | 0 <= i < 9 ensures FieldAgrees(s, a, b, i) {
        SameEventAgrees(s, a, b, i);
      }
    } else if forall i :: 0 <= i < 9 ==> FieldAgrees(s, a, b, i) {
      FieldsDecide(s, a, b);
    }
  }

  lemma MaterialNoTies(notAfter: Order, source: Text, e: Event)
    requires NoTies(notAfter, e.metadata)
    requires NoTiedKeys(notAfter, Material(source, e).entries)
    ensures NoTies(notAfter, Material(source, e))
  {
  }

  lemma TailsDecide(p: Text, x: Text, y: Text)
    ensures p + x == p + y <==> x == y
  {
    assert (p + x)[|p|..] == x && (p + y)[|p|..] == y;
  }

  /** Two events without delivery identifiers share a ledger row exactly when tenant, source and every
      field agree, metadata up to the order of object keys. */
  lemma ContentKeysIdentifyEvents(notAfter: Order, t: Text, s: Text, a: Event, t': Text, s': Text, b: Event)
    requires Consistent(notAfter) && WellFormed(a.metadata) && WellFormed(b.metadata)
    requires NoTies(notAfter, a.metadata) && NoTiedKeys(notAfter, Material(s, a).entries)
    ensures RowKeyOf(notAfter, t, s, a, None) == RowKeyOf(notAfter, t', s', b, None)
      <==> t == t' && s == s' && SameEvent(a, b)
  {
    if t == t' && s == s' {
      var p := Ascii("tenant=") + t + [BAR];
      TailsDecide(p, Canonicalize(notAfter, Material(s, a)), Canonicalize(notAfter, Material(s, b)));
      MaterialFields(s, a);
      MaterialFields(s, b);
      MaterialNoTies(notAfter, s, a);
      CanonicalTextNamesTheValue(notAfter, Material(s, a), Material(s, b));
      EqualMaterial(s, a, b);
    }
  }

  /** An event keyed by its delivery identifier never shares a row with one keyed by its content. */
  lemma HintedAndContentKeysNeverMeet(notAfter: Order, t: Text, s: Text, a: Event, h: Hint, t': Text, s': Text, b: Event)
    ensures RowKeyOf(notAfter, t, s, a, Some(h)) != RowKeyOf(notAfter, t', s', b, None)
  {
    if t == t' && s == s' {
      var p := Ascii("tenant=") + t + [BAR];
      var x := Ascii("source=") + s + Ascii("|ns=") + h.namespace + Ascii("|key=") + h.upstreamKey;
      var y := Canonicalize(notAfter, Material(s, b));
      TailsDecide(p, x, y);
      assert x[0] == 's' as int && y[0] == LBRACE;
    }
  }

  function HintedHead(t: Text, s: Text): Text {
    Ascii("tenant=") + t + [BAR] + Ascii("source=") + s + Ascii("|ns=")
  }

  const KEY_MARK: Text := Ascii("|key=")

  lemma HintedText(notAfter: Order, t: Text, s: Text, a: Event, h: Hint)
    ensures KeyText(notAfter, t, s, a, Some(h)) == HintedHead(t, s) + (h.namespace + KEY_MARK + h.upstreamKey)
  {
  }

  lemma NoSpill(a: Text, x: Text, b: Text, y: Text)
    requires BAR !in b
    ensures !Spills(a, x, b, y, KEY_MARK)
  {
    assert (a + KEY_MARK)[|a|] == BAR;
  }

  /** Delivery identifiers share a row exactly when tenant and source agree, whatever the events carry, and
      so do namespace and identifier or else one namespace holds the key mark where the other one ends.
      Where namespaces hold no bar that leaves namespace and identifier. */
  lemma HintedKeysIdentifyDeliveries(notAfter: Order, t: Text, s: Text, a: Event, h: Hint, t': Text, s': Text, b: Event, h': Hint)
    ensures RowKeyOf(notAfter, t, s, a, Some(h)) == RowKeyOf(notAfter, t', s', b, Some(h'))
      <==> t == t' && s == s'
           && (h == h' || Spills(h.namespace, h.upstreamKey, h'.namespace, h'.upstreamKey, KEY_MARK)
               || Spills(h'.namespace, h'.upstreamKey, h.namespace, h.upstreamKey, KEY_MARK))
    ensures BAR !in h.namespace && BAR !in h'.namespace ==>
      (RowKeyOf(notAfter, t, s, a, Some(h)) == RowKeyOf(notAfter, t', s', b, Some(h')) <==> t == t' && s == s' && h == h')
  {
    if t == t' && s == s' {
      HintedText(notAfter, t, s, a, h);
      HintedText(notAfter, t, s, b, h');
      TailsDecide(HintedHead(t, s), h.namespace + KEY_MARK + h.upstreamKey, h'.namespace + KEY_MARK + h'.upstreamKey);
      JoinedTextsAgree(h.namespace, h.upstreamKey, h'.namespace, h'.upstreamKey, KEY_MARK);
    }
    if BAR !in h.namespace && BAR !in h'.namespace {
      NoSpill(h.namespace, h.upstreamKey, h'.namespace, h'.upstreamKey);
      NoSpill(h'.namespace, h'.upstreamKey, h.namespace, h.upstreamKey);
    }
  }
}
