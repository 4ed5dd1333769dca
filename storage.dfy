/** The browser's Web Storage (`localStorage`), shared by the diff viewer and the
    locale resolver. Every access can throw; both callers catch and log. */
module Storage {
  import opened Results

  /** How the browser treats accesses. When storage is disabled every
      getItem, setItem and removeItem throws. Otherwise a setItem is refused
      (the quota error) exactly when `admits` rejects the contents it would
      produce; admitting is a property of the whole store, as a quota is. */
  datatype Policy = Policy(enabled: bool, admits: map<string, string> -> bool)

  datatype StorageError = Unavailable

  /** getItem: the stored value, `None` for a missing key (JavaScript's null),
      or the error it throws. */
  function Read(p: Policy, entries: map<string, string>, key: string): (r: Result<Option<string>, StorageError>)
    ensures r.Ok? <==> p.enabled
    ensures r.Ok? ==> (r.value.Some? <==> key in entries)
    ensures r.Ok? && key in entries ==> r.value.value == entries[key]
  {
    if !p.enabled then Err(Unavailable)
    else if key in entries then Ok(Some(entries[key]))
    else Ok(None)
  }

  /** Whether setItem(key, value) completes instead of throwing. */
  predicate Accepts(p: Policy, entries: map<string, string>, key: string, value: string) {
    p.enabled && p.admits(entries[key := value])
  }

  /** The store after setItem(key, value): the write, or nothing if it threw. */
  function Written(p: Policy, entries: map<string, string>, key: string, value: string): map<string, string> {
    if Accepts(p, entries, key, value) then entries[key := value] else entries
  }

  /** The store after removeItem(key): the removal, or nothing if it threw. */
  function Removed(p: Policy, entries: map<string, string>, key: string): map<string, string> {
    if p.enabled then entries - {key} else entries
  }

  /** A completed write is read back; no other key is disturbed. */
  lemma ReadAfterWrite(p: Policy, entries: map<string, string>, key: string, value: string, other: string)
    requires Accepts(p, entries, key, value)
    ensures Read(p, Written(p, entries, key, value), key) == Ok(Some(value))
    ensures other != key ==> Read(p, Written(p, entries, key, value), other) == Read(p, entries, other)
  {
  }

  /** A completed removal reads back as absent; no other key is disturbed. */
  lemma ReadAfterRemove(p: Policy, entries: map<string, string>, key: string, other: string)
    requires p.enabled
    ensures Read(p, Removed(p, entries, key), key) == Ok(None)
    ensures other != key ==> Read(p, Removed(p, entries, key), other) == Read(p, entries, other)
  {
  }

  class LocalStorage {
    var entries: map<string, string>
    const policy: Policy

    constructor (policy: Policy, entries: map<string, string>)
      ensures this.policy == policy && this.entries == entries
    {
      this.policy := policy;
      this.entries := entries;
    }

    /** localStorage.getItem(key). */
    method GetItem(key: string) returns (r: Result<Option<string>, StorageError>)
      ensures r == Read(policy, entries, key)
    {
      if !policy.enabled {
        return Err(Unavailable);
      }
      r := if key in entries then Ok(Some(entries[key])) else Ok(None);
    }

    /** localStorage.setItem(key, value); `ok` is false when it threw. */
    method SetItem(key: string, value: string) returns (ok: bool)
      modifies this
      ensures ok == old(Accepts(policy, entries, key, value))
      ensures entries == Written(policy, old(entries), key, value)
    {
      ok := policy.enabled && policy.admits(entries[key := value]);
      if ok {
        entries := entries[key := value];
      }
    }

    /** localStorage.removeItem(key); `ok` is false when it threw. */
    method RemoveItem(key: string) returns (ok: bool)
      modifies this
      ensures ok == policy.enabled
      ensures entries == Removed(policy, old(entries), key)
    {
      ok := policy.enabled;
      if ok {
        entries := entries - {key};
      }
    }
  }
}
