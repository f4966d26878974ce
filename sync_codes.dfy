/**
 * The local-storage key space of the medication calculator and its sync
 * records: a record stored under `sync_<CODE>` with a 24-hour expiry, the
 * lookup that applying a code performs, and the sweep that deletes expired or
 * corrupt sync records.
 */
module SyncCodes {
  import opened Wrappers
  import opened Strings
  import opened MedicationMath

  /** The JSON object a sync code is stored with; the form values are kept as text. */
  datatype SyncRecord = SyncRecord(medication: string, startTime: string, breakTime: string, timestamp: int, expires: int)

  /**
   * A stored string, by what wrote it: plain text, the JSON text of a sync
   * record, or the Base64 text of a rendered calculation.
   */
  datatype StoredValue = Text(text: string) | SyncJson(record: SyncRecord) | CalculationBase64(items: seq<OutputItem>)

  type Storage = map<string, StoredValue>

  /**
   * A stored string JavaScript reads as false: the empty text, which is also
   * what the Base64 text of an empty rendered calculation is.
   */
  predicate IsEmptyText(v: StoredValue) {
    v == Text("") || v == CalculationBase64([])
  }

  const SyncPrefix := "sync_"
  const SyncExpiryHours := 24
  const SyncExpiryMs := SyncExpiryHours * 60 * 60 * 1000

  predicate IsSyncKey(key: string) {
    |key| >= |SyncPrefix| && key[..|SyncPrefix|] == SyncPrefix
  }

  /** The storage key of a code: the prefix and the upper-cased code. */
  function SyncKey(code: string): (key: string)
    ensures IsSyncKey(key) && key[|SyncPrefix|..] == Upper(code)
  {
    SyncPrefix + Upper(code)
  }

  /** Two codes name the same storage key exactly when they agree up to letter case. */
  lemma SyncKeyCaseInsensitive(a: string, b: string)
    ensures SyncKey(a) == SyncKey(b) <==> Upper(a) == Upper(b)
  {
    if SyncKey(a) == SyncKey(b) {
      assert SyncKey(a)[|SyncPrefix|..] == SyncKey(b)[|SyncPrefix|..];
    }
  }

  /** The record `generateSyncCode` stores: the form values, now, and now plus 24 hours. */
  function NewSyncRecord(medication: string, startTime: string, breakTime: string, now: int): (r: SyncRecord)
    ensures r.timestamp == now && r.expires == now + 86_400_000
  {
    SyncRecord(medication, startTime, breakTime, now, now + SyncExpiryMs)
  }

  /**
   * `JSON.parse` of a stored value followed by reading `expires`: only the
   * JSON text of a sync record gives a record; any other stored text counts
   * as corrupt.
   */
  function ParseSync(v: StoredValue): (r: Option<SyncRecord>)
    ensures r.Some? <==> v.SyncJson?
    ensures r.Some? ==> v == SyncJson(r.value)
  {
    if v.SyncJson? then Some(v.record) else None
  }

  /** A sync entry the sweep deletes: corrupt, or past its expiry. */
  predicate Stale(key: string, v: StoredValue, now: int) {
    IsSyncKey(key) && (ParseSync(v).None? || now > ParseSync(v).value.expires)
  }

  /** `cleanupOldSyncCodes`: the storage without its stale sync entries. */
  function Sweep(store: Storage, now: int): (r: Storage)
    ensures r.Keys <= store.Keys
    ensures forall k :: k in r ==> r[k] == store[k] && !Stale(k, r[k], now)
  {
    map k | k in store && !Stale(k, store[k], now) :: store[k]
  }

  /**
   * The sweep deletes exactly the stale sync entries: every other key, and
   * every unexpired, readable sync record, keeps its value.
   */
  lemma SweepRemovesExactlyStale(store: Storage, now: int, key: string)
    requires key in store
    ensures key !in Sweep(store, now) <==> IsSyncKey(key) && (ParseSync(store[key]).None? || now > ParseSync(store[key]).value.expires)
    ensures !IsSyncKey(key) ==> key in Sweep(store, now) && Sweep(store, now)[key] == store[key]
  {
  }

  /** Sweeping at one instant and then at a later one is sweeping once, at the later one. */
  lemma SweepLaterSubsumesEarlier(store: Storage, earlier: int, later: int)
    requires earlier <= later
    ensures Sweep(Sweep(store, earlier), later) == Sweep(store, later)
  {
    var a, b := Sweep(Sweep(store, earlier), later), Sweep(store, later);
    forall k | k in b ensures k in a {
      assert !Stale(k, store[k], earlier);
    }
    assert a.Keys == b.Keys;
  }

  /** What applying a code finds in storage. */
  datatype SyncLookup = Unknown | Unreadable | Expired | Found(record: SyncRecord)

  /**
   * The lookup of `applySyncCode`: a missing or empty entry is unknown, an
   * entry that does not parse is unreadable, one with `now > expires` is
   * expired, and any other gives its record.
   */
  function LookupSync(store: Storage, code: string, now: int): (r: SyncLookup)
    ensures r.Unknown? <==> SyncKey(code) !in store || IsEmptyText(store[SyncKey(code)])
    ensures r.Unreadable? <==> SyncKey(code) in store && !IsEmptyText(store[SyncKey(code)]) && !store[SyncKey(code)].SyncJson?
    ensures r.Expired? <==> SyncKey(code) in store && store[SyncKey(code)].SyncJson? && now > store[SyncKey(code)].record.expires
    ensures r.Found? ==> store[SyncKey(code)] == SyncJson(r.record) && now <= r.record.expires
  {
    var key := SyncKey(code);
    if key !in store || IsEmptyText(store[key]) then Unknown
    else
      match ParseSync(store[key])
      case None => Unreadable
      case Some(record) => if now > record.expires then Expired else Found(record)
  }

  /**
   * A stored code, entered in any letter case, gives back exactly the stored
   * form values up to and including the instant it expires, and is expired
   * after that.
   */
  lemma SyncRoundTrip(store: Storage, generated: string, entered: string,
                      medication: string, startTime: string, breakTime: string, now: int, later: int)
    requires Upper(entered) == Upper(generated)
    ensures var record := NewSyncRecord(medication, startTime, breakTime, now);
      LookupSync(store[SyncKey(generated) := SyncJson(record)], entered, later)
        == if later <= now + SyncExpiryMs then Found(record) else Expired
  {
    SyncKeyCaseInsensitive(entered, generated);
  }

  /** A code whose entry was just written survives the sweep that follows it. */
  lemma FreshRecordSurvivesSweep(store: Storage, generated: string,
                                 medication: string, startTime: string, breakTime: string, now: int)
    ensures var record := NewSyncRecord(medication, startTime, breakTime, now);
            var swept := Sweep(store[SyncKey(generated) := SyncJson(record)], now);
      SyncKey(generated) in swept && swept[SyncKey(generated)] == SyncJson(record)
  {
  }

  /**
   * After a sweep, applying any code at the same instant finds either nothing
   * or a live record: never an expired or unreadable one.
   */
  lemma SweptStoreHasNoStaleCodes(store: Storage, code: string, now: int)
    ensures LookupSync(Sweep(store, now), code, now).Unknown? || LookupSync(Sweep(store, now), code, now).Found?
  {
    var key := SyncKey(code);
    if key in Sweep(store, now) {
      assert !Stale(key, store[key], now);
    }
  }
}
