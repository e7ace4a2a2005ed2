/**
 * The in-memory key-value store every manager writes through.  Values are
 * deep-copied through JSON on the way in and out, which is the identity on
 * `Json` values; a stored value that is falsy loads as `null`.
 */
module Storage {
  import opened Wrappers
  import opened Json

  const GdprConsentKey := "ukimm_gdpr_consent"
  const ClientDataKey := "ukimm_client_data"
  const DeadlinesKey := "ukimm_deadlines"
  const UploadedFilesKey := "ukimm_uploaded_files"
  const DemoModeKey := "ukimm_demo_mode"

  type Memory = map<string, Json>

  /** `load(key)`: `null`, or the stored value when that value is truthy. */
  function LoadFrom(m: Memory, key: string): (r: Json)
    ensures r == Null || (key in m && r == m[key])
    ensures r != Null ==> Truthy(r)
    ensures Truthy(r) <==> key in m && Truthy(m[key])
  {
    if key in m && Truthy(m[key]) then m[key] else Null
  }

  /** A `save` followed by a `load` of the same key gives the value back when it
      is truthy and `null` otherwise; every other key loads as before. */
  lemma SaveThenLoad(m: Memory, key: string, v: Json, other: string)
    ensures LoadFrom(m[key := v], key) == if Truthy(v) then v else Null
    ensures other != key ==> LoadFrom(m[key := v], other) == LoadFrom(m, other)
  {
  }

  /** A removed key loads as `null`; every other key loads as before. */
  lemma RemoveThenLoad(m: Memory, key: string, other: string)
    ensures LoadFrom(m - {key}, key) == Null
    ensures other != key ==> LoadFrom(m - {key}, other) == LoadFrom(m, other)
  {
  }

  /** The record `saveGDPRConsent` stores. */
  function ConsentRecord(consent: bool, timestamp: string): Json {
    Obj(map["consented" := Bool(consent), "timestamp" := Str(timestamp)])
  }

  /** `hasGDPRConsent()`: the stored record's `consented` is exactly `true`. */
  function ConsentIn(m: Memory): (r: bool)
    ensures r <==> GdprConsentKey in m && m[GdprConsentKey].Obj?
                   && Get(m[GdprConsentKey], "consented") == Some(Bool(true))
  {
    var consent := LoadFrom(m, GdprConsentKey);
    consent != Null && Get(consent, "consented") == Some(Bool(true))
  }

  /** Saving a consent decision makes `hasGDPRConsent` report exactly that decision. */
  lemma ConsentRoundTrip(m: Memory, consent: bool, timestamp: string)
    ensures ConsentIn(m[GdprConsentKey := ConsentRecord(consent, timestamp)]) == consent
  {
    var rec := ConsentRecord(consent, timestamp);
    assert rec.fields["consented"] == Bool(consent);
  }

  /** `load(key) || []`, as `loadDeadlines` and `loadUploadedFiles` read their lists. */
  function ListIn(m: Memory, key: string): (r: Json)
    ensures key !in m ==> r == Arr([])
    ensures key in m && Truthy(m[key]) ==> r == m[key]
    ensures Truthy(r)
  {
    var v := LoadFrom(m, key);
    if v == Null then Arr([]) else v
  }

  /** `isDemoMode()`: the stored value is exactly `true`. */
  function DemoModeIn(m: Memory): (r: bool)
    ensures r <==> DemoModeKey in m && m[DemoModeKey] == Bool(true)
  {
    LoadFrom(m, DemoModeKey) == Bool(true)
  }

  lemma DemoModeRoundTrip(m: Memory, on: bool)
    ensures DemoModeIn(m[DemoModeKey := Bool(on)]) == on
  {
  }

  /** After `clearAll` every key loads as `null`, and the typed readers fall back to their defaults. */
  lemma ClearedStore(key: string)
    ensures LoadFrom(map[], key) == Null
    ensures ListIn(map[], DeadlinesKey) == Arr([]) && ListIn(map[], UploadedFilesKey) == Arr([])
    ensures !ConsentIn(map[]) && !DemoModeIn(map[])
  {
  }

  /** The five keys are distinct, so each save leaves the other records alone. */
  lemma KeysDistinct()
    ensures DemoModeKey != ClientDataKey && DemoModeKey != DeadlinesKey && DemoModeKey != UploadedFilesKey
    ensures DemoModeKey != GdprConsentKey
  {
    assert DemoModeKey[8] != DeadlinesKey[8];
    assert |DemoModeKey| != |ClientDataKey| && |DemoModeKey| != |UploadedFilesKey|;
    assert DemoModeKey[6] != GdprConsentKey[6];
  }

  /** Saving the client data or the deadlines leaves every other key as it was. */
  lemma SaveKeepsOthers(m: Memory, key: string, v: Json)
    requires key == ClientDataKey || key == DeadlinesKey
    ensures m[key := v] - {ClientDataKey, DeadlinesKey} == m - {ClientDataKey, DeadlinesKey}
  {
  }

  /** Two stores that agree away from the client data and the deadlines agree on every other key. */
  lemma OtherKeyKept(before: Memory, after: Memory, key: string)
    requires after - {ClientDataKey, DeadlinesKey} == before - {ClientDataKey, DeadlinesKey}
    requires key != ClientDataKey && key != DeadlinesKey && key in before
    ensures key in after && after[key] == before[key]
  {
    assert key in before - {ClientDataKey, DeadlinesKey};
    assert (after - {ClientDataKey, DeadlinesKey})[key] == after[key];
  }

  /** A save of the demo flag followed by saves of the client data and the
      deadlines leaves every key but those three as it was. */
  lemma DemoSaveKeepsOthers(before: Memory, after: Memory, v: Json)
    requires after - {ClientDataKey, DeadlinesKey} == before[DemoModeKey := v] - {ClientDataKey, DeadlinesKey}
    ensures after - {ClientDataKey, DeadlinesKey, DemoModeKey} == before - {ClientDataKey, DeadlinesKey, DemoModeKey}
  {
    var l, r := after - {ClientDataKey, DeadlinesKey, DemoModeKey}, before - {ClientDataKey, DeadlinesKey, DemoModeKey};
    forall k | k in l
      ensures k in r && l[k] == r[k]
    {
      assert k in after - {ClientDataKey, DeadlinesKey};
    }
    forall k | k in r
      ensures k in l
    {
      assert k in before[DemoModeKey := v] - {ClientDataKey, DeadlinesKey};
    }
  }

  class StorageManager {
    var memory: Memory

    constructor ()
      ensures memory == map[]
    {
      memory := map[];
    }

    /** `save(key, value)`; the JSON deep copy is the identity on `Json` values. */
    method Save(key: string, value: Json) returns (ok: bool)
      modifies this
      ensures memory == old(memory)[key := value] && ok
    {
      memory := memory[key := value];
      ok := true;
    }

    function Load(key: string): Json
      reads this
    {
      LoadFrom(memory, key)
    }

    method Remove(key: string) returns (ok: bool)
      modifies this
      ensures memory == old(memory) - {key} && ok
      ensures Load(key) == Null
    {
      memory := memory - {key};
      ok := true;
    }

    method ClearAll() returns (ok: bool)
      modifies this
      ensures memory == map[] && ok
      ensures forall key :: Load(key) == Null
    {
      memory := map[];
      ok := true;
    }

    method SaveClientData(data: Json) returns (ok: bool)
      modifies this
      ensures memory == old(memory)[ClientDataKey := data] && ok
    {
      ok := Save(ClientDataKey, data);
    }

    function LoadClientData(): Json
      reads this
    {
      Load(ClientDataKey)
    }

    /** `saveGDPRConsent(consent)`; the ISO timestamp comes from the clock. */
    method SaveGdprConsent(consent: bool, timestamp: string) returns (ok: bool)
      modifies this
      ensures memory == old(memory)[GdprConsentKey := ConsentRecord(consent, timestamp)] && ok
      ensures HasGdprConsent() == consent
    {
      ok := Save(GdprConsentKey, ConsentRecord(consent, timestamp));
      ConsentRoundTrip(old(memory), consent, timestamp);
    }

    function HasGdprConsent(): bool
      reads this
    {
      ConsentIn(memory)
    }

    method SaveDeadlines(deadlines: Json) returns (ok: bool)
      modifies this
      ensures memory == old(memory)[DeadlinesKey := deadlines] && ok
    {
      ok := Save(DeadlinesKey, deadlines);
    }

    function LoadDeadlines(): Json
      reads this
    {
      ListIn(memory, DeadlinesKey)
    }

    method SaveUploadedFiles(files: Json) returns (ok: bool)
      modifies this
      ensures memory == old(memory)[UploadedFilesKey := files] && ok
    {
      ok := Save(UploadedFilesKey, files);
    }

    function LoadUploadedFiles(): Json
      reads this
    {
      ListIn(memory, UploadedFilesKey)
    }

    method SaveDemoMode(on: bool) returns (ok: bool)
      modifies this
      ensures memory == old(memory)[DemoModeKey := Bool(on)] && ok
      ensures IsDemoMode() == on
    {
      ok := Save(DemoModeKey, Bool(on));
    }

    function IsDemoMode(): bool
      reads this
    {
      DemoModeIn(memory)
    }
  }
}
