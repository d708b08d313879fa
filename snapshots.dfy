/**
 * Player-status snapshots and the change detection done on them at every poll:
 * normalisation of nested fields, the set of changed keys, and its split into
 * noisy and immediate keys (vlc_my_web_interface.py:63, 82-96).
 */
module Snapshots {
  import opened Wrappers

  /** One field value as the XML-to-dictionary conversion produces it. */
  datatype Value =
    | Null                               // an empty element
    | Text(text: string)                 // the text of a leaf element
    | Items(elems: seq<Value>)           // a repeated element
    | Nested(fields: map<string, Value>) // an element with children

  /** A fetched player status: field name to value. */
  type Snapshot = map<string, Value>

  /** The canonical serialisation of a nested mapping (JSON with sorted keys).
      It is supplied by the caller; its internals are not modelled. */
  type Canonicaliser = map<string, Value> -> string

  /** Fields that change at every tick and are broadcast only when stale. */
  const NoisyKeys: set<string> := {"time", "position", "stats"}

  /** One entry of the normalisation: a nested mapping becomes its canonical
      string, anything else is kept as it is. */
  function NormalizeValue(v: Value, canon: Canonicaliser): (r: Value)
    ensures !r.Nested?
    ensures !v.Nested? ==> r == v
    ensures v.Nested? ==> r == Text(canon(v.fields))
  {
    if v.Nested? then Text(canon(v.fields)) else v
  }

  /** A snapshot with no nested mapping left in it. */
  predicate IsNormalized(d: Snapshot) {
    forall k :: k in d ==> !d[k].Nested?
  }

  /** The dictionary comprehension that normalises a snapshot. */
  function Normalize(d: Snapshot, canon: Canonicaliser): (r: Snapshot)
    ensures r.Keys == d.Keys
    ensures IsNormalized(r)
    ensures forall k :: k in d && !d[k].Nested? ==> r[k] == d[k]
    ensures forall k :: k in d && d[k].Nested? ==> r[k] == Text(canon(d[k].fields))
  {
    map k | k in d :: NormalizeValue(d[k], canon)
  }

  /** Normalising twice is normalising once. */
  lemma NormalizeIdempotent(d: Snapshot, canon: Canonicaliser)
    ensures Normalize(Normalize(d, canon), canon) == Normalize(d, canon)
  {
    var once := Normalize(d, canon);
    var twice := Normalize(once, canon);
    assert twice.Keys == once.Keys;
    forall k | k in once ensures twice[k] == once[k] {
      assert !once[k].Nested?;
    }
  }

  /** Normalisation leaves a snapshot alone exactly when it holds no nested
      mapping. */
  lemma NormalizeFixedPoint(d: Snapshot, canon: Canonicaliser)
    ensures Normalize(d, canon) == d <==> IsNormalized(d)
  {
    if IsNormalized(d) {
      var r := Normalize(d, canon);
      assert r.Keys == d.Keys;
      forall k | k in d ensures r[k] == d[k] {
        assert !d[k].Nested?;
      }
    }
  }

  /** `dict.get`: the value under `k`, or `None` when `k` is absent. */
  function Get(d: Snapshot, k: string): (v: Value)
    ensures k in d ==> v == d[k]
    ensures k !in d ==> v == Null
  {
    if k in d then d[k] else Null
  }

  /** The normalised last-broadcast status; no cache compares as `{}`. */
  function NormalizedCache(cache: Option<Snapshot>, canon: Canonicaliser): (r: Snapshot)
    ensures cache.None? ==> r == map[]
    ensures cache.Some? ==> r.Keys == cache.value.Keys
    ensures cache.Some? ==> forall k :: k in r ==> r[k] == NormalizeValue(cache.value[k], canon)
  {
    if cache.Some? then Normalize(cache.value, canon) else map[]
  }

  /** The keys of the new status whose normalised value differs from the
      normalised cache's value under the same key (looked up with `dict.get`). */
  function ChangedKeys(status: Snapshot, cache: Option<Snapshot>, canon: Canonicaliser): (r: set<string>)
    // keys present only in the cache are never reported
    ensures r <= status.Keys
    ensures forall k :: k in status && cache.Some? && k in cache.value ==>
      (k in r <==> NormalizeValue(status[k], canon) != NormalizeValue(cache.value[k], canon))
    // a key the cache lacks counts as changed unless its new value is None itself
    ensures forall k :: k in status && (cache.None? || k !in cache.value) ==>
      (k in r <==> status[k] != Null)
  {
    var now := Normalize(status, canon);
    var was := NormalizedCache(cache, canon);
    set k | k in now && now[k] != Get(was, k)
  }

  /** An identical field is never reported, whatever the canonicaliser. */
  lemma SameFieldNotChanged(status: Snapshot, cache: Snapshot, k: string, canon: Canonicaliser)
    requires k in status && k in cache && status[k] == cache[k]
    ensures k !in ChangedKeys(status, Some(cache), canon)
  {
  }

  /** Re-polling the status that was last broadcast reports no change. */
  lemma NothingChangedSinceBroadcast(status: Snapshot, canon: Canonicaliser)
    ensures ChangedKeys(status, Some(status), canon) == {}
  {
    var r := ChangedKeys(status, Some(status), canon);
    forall k | k in r ensures false {
      SameFieldNotChanged(status, status, k, canon);
    }
  }

  /** The split of the changed keys into noisy keys (`ignored`) and the rest
      (`immediate`). */
  function Partition(changed: set<string>): (r: (set<string>, set<string>))
    ensures r.0 !! r.1
    ensures r.0 + r.1 == changed
    ensures r.0 <= NoisyKeys
    ensures r.1 !! NoisyKeys
  {
    (changed * NoisyKeys, changed - NoisyKeys)
  }
}
