/**
 * Fingerprints of outgoing domain events (internal/server/ws_events.go:678-722).
 *
 * A fingerprint is the JSON object {type, chatID, ids[, entries]} with the
 * volatile keys `ts` and `timestamp` removed from the entries. `json.Marshal`
 * writes object keys in sorted order, so two fingerprints are the same text
 * exactly when they are the same JSON value; the model compares values.
 *
 * As written, `normalizeForFingerprint` reaches the hydrated records through
 * its `[]compatRecord` case, but each record has the named type
 * `compatRecord`, which the `map[string]any` case does not match: the record
 * falls to the default case and keeps its volatile keys. `FingerprintAsWritten`
 * models that; `Normalize` is the intended, every-depth normalisation that the
 * hub uses in this model.
 */
module WsFingerprint {
  import opened JsonValues
  import opened WsMapper

  /** Keys whose values change between otherwise identical deliveries. */
  predicate Volatile(k: string)
  {
    k == "ts" || k == "timestamp"
  }

  /** No object, at any depth, has a volatile key. */
  predicate NoVolatileKeys(v: Json)
    decreases v
  {
    match v
    case JArray(items) => forall i :: 0 <= i < |items| ==> NoVolatileKeys(items[i])
    case JObject(m) => forall k :: k in m ==> !Volatile(k) && NoVolatileKeys(m[k])
    case _ => true
  }

  /** normalizeForFingerprint, as intended: arrays element-wise, objects without their volatile keys. */
  function Normalize(v: Json): (r: Json)
    ensures NoVolatileKeys(r)
    ensures r.JArray? <==> v.JArray?
    ensures r.JObject? <==> v.JObject?
    ensures !v.JArray? && !v.JObject? ==> r == v
    decreases v
  {
    match v
    case JArray(items) =>
      JArray(seq(|items|, i requires 0 <= i < |items| => Normalize(items[i])))
    case JObject(m) =>
      JObject(map k | k in m && !Volatile(k) :: Normalize(m[k]))
    case _ => v
  }

  /** A value without volatile keys is already normalised. */
  lemma {:induction false} NormalizeFixesClean(v: Json)
    requires NoVolatileKeys(v)
    ensures Normalize(v) == v
    decreases v
  {
    match v
    case JArray(items) =>
      forall i | 0 <= i < |items| ensures Normalize(items[i]) == items[i] {
        NormalizeFixesClean(items[i]);
      }
    case JObject(m) =>
      forall k | k in m ensures Normalize(m[k]) == m[k] {
        NormalizeFixesClean(m[k]);
      }
      assert Normalize(v).fields == m;
    case _ =>
  }

  /** Normalising twice is normalising once. */
  lemma NormalizeIdempotent(v: Json)
    ensures Normalize(Normalize(v)) == Normalize(v)
  {
    NormalizeFixesClean(Normalize(v));
  }

  /** Changing or removing a volatile key of an object does not change its normalisation. */
  lemma NormalizeIgnoresVolatile(m: map<string, Json>, k: string, x: Json)
    requires Volatile(k)
    ensures Normalize(JObject(m[k := x])) == Normalize(JObject(m))
    ensures Normalize(JObject(m - {k})) == Normalize(JObject(m))
  {
    assert Normalize(JObject(m[k := x])).fields == Normalize(JObject(m)).fields;
    assert Normalize(JObject(m - {k})).fields == Normalize(JObject(m)).fields;
  }

  /** Values that normalise alike, placed under the same non-volatile keys, normalise alike: the rule holds at every depth. */
  lemma NormalizeCongruent(m1: map<string, Json>, m2: map<string, Json>)
    requires forall k :: !Volatile(k) ==> (k in m1 <==> k in m2)
    requires forall k :: k in m1 && k in m2 && !Volatile(k) ==> Normalize(m1[k]) == Normalize(m2[k])
    ensures Normalize(JObject(m1)) == Normalize(JObject(m2))
  {
    assert Normalize(JObject(m1)).fields == Normalize(JObject(m2)).fields;
  }

  /** The hydrated entries as one JSON array of objects. */
  function EntriesValue(entries: seq<map<string, Json>>): (r: Json)
    ensures r.JArray? && |r.items| == |entries|
    ensures forall i :: 0 <= i < |entries| ==> r.items[i] == JObject(entries[i])
  {
    JArray(seq(|entries|, i requires 0 <= i < |entries| => JObject(entries[i])))
  }

  /** The event part shared by both forms of the fingerprint. */
  function EventFields(ev: DomainEvent): map<string, Json>
  {
    map["type" := JString(ev.kind.Wire()), "chatID" := JString(ev.chatID), "ids" := StringArray(ev.ids)]
  }

  /** buildWSFingerprint with the intended normalisation; `entries` only when there are some. */
  function Fingerprint(ev: DomainEvent, entries: seq<map<string, Json>>): (r: Json)
    ensures r.JObject?
    ensures "type" in r.fields && r.fields["type"] == JString(ev.kind.Wire())
    ensures "chatID" in r.fields && r.fields["chatID"] == JString(ev.chatID)
    ensures "ids" in r.fields && r.fields["ids"] == StringArray(ev.ids)
    ensures "entries" in r.fields <==> |entries| > 0
    ensures |entries| > 0 ==> NoVolatileKeys(r.fields["entries"])
  {
    var base := EventFields(ev);
    if |entries| == 0 then JObject(base)
    else JObject(base["entries" := Normalize(EntriesValue(entries))])
  }

  /**
   * buildWSFingerprint exactly as written: the `[]compatRecord` case sends every
   * record to the default case, which returns it unchanged.
   */
  function FingerprintAsWritten(ev: DomainEvent, entries: seq<map<string, Json>>): (r: Json)
    ensures r.JObject? && ("entries" in r.fields <==> |entries| > 0)
    ensures |entries| > 0 ==> r.fields["entries"] == EntriesValue(entries)
  {
    var base := EventFields(ev);
    if |entries| == 0 then JObject(base)
    else JObject(base["entries" := EntriesValue(entries)])
  }

  /** Distinct events never share a fingerprint, whatever their entries. */
  lemma FingerprintSeparatesEvents(e1: DomainEvent, n1: seq<map<string, Json>>, e2: DomainEvent, n2: seq<map<string, Json>>)
    requires Fingerprint(e1, n1) == Fingerprint(e2, n2)
    ensures e1 == e2
    ensures |n1| == |n2|
  {
    var f1 := Fingerprint(e1, n1);
    var f2 := Fingerprint(e2, n2);
    assert JString(e1.kind.Wire()) == JString(e2.kind.Wire());
    assert e1.kind.Wire() == e2.kind.Wire();
    assert e1.kind == e2.kind;
    StringArrayInjective(e1.ids, e2.ids);
    if |n1| > 0 {
      assert |Normalize(EntriesValue(n1)).items| == |Normalize(EntriesValue(n2)).items|;
    }
  }

  /** Entries that differ only in volatile keys give the same fingerprint. */
  lemma FingerprintIgnoresVolatile(ev: DomainEvent, entries: seq<map<string, Json>>, i: nat, k: string, x: Json)
    requires i < |entries| && Volatile(k)
    ensures Fingerprint(ev, entries[i := entries[i][k := x]]) == Fingerprint(ev, entries)
  {
    var changed := entries[i := entries[i][k := x]];
    NormalizeIgnoresVolatile(entries[i], k, x);
    var a := Normalize(EntriesValue(changed));
    var b := Normalize(EntriesValue(entries));
    assert forall j :: 0 <= j < |entries| ==> a.items[j] == b.items[j];
    assert a == b;
  }

  /** Two hydrations of one message that differ only in its `timestamp`. */
  function TimestampedEntry(t: int): map<string, Json>
  {
    map["id" := JString("$a"), "timestamp" := JNumber(t)]
  }

  /** As written, the same message hydrated at two timestamps yields two fingerprints, so the 250 ms debounce does not catch it. */
  lemma AsWrittenKeepsTimestamp(chatID: string)
    ensures var ev := DomainEvent(MessageUpserted, chatID, ["$a"]);
      FingerprintAsWritten(ev, [TimestampedEntry(1)]) != FingerprintAsWritten(ev, [TimestampedEntry(2)])
      && Fingerprint(ev, [TimestampedEntry(1)]) == Fingerprint(ev, [TimestampedEntry(2)])
  {
    var ev := DomainEvent(MessageUpserted, chatID, ["$a"]);
    var a := FingerprintAsWritten(ev, [TimestampedEntry(1)]);
    assert a.fields["entries"].items[0].fields["timestamp"] == JNumber(1);
    FingerprintIgnoresVolatile(ev, [TimestampedEntry(1)], 0, "timestamp", JNumber(2));
    assert TimestampedEntry(1)["timestamp" := JNumber(2)] == TimestampedEntry(2);
    assert [TimestampedEntry(1)][0 := TimestampedEntry(1)["timestamp" := JNumber(2)]] == [TimestampedEntry(2)];
  }
}
