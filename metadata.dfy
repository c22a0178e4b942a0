/** The reserved `_metadata` table of every database: key/value pairs
    with creation and last-update timestamps. Timestamps are the ISO
    strings `datetime.now().isoformat()` yields, passed in as `now`. */
module Metadata {

  datatype Entry = Entry(value: string, createdAt: string, updatedAt: string)

  /** The table after `_update_metadata(key, value)` at time `now`: the
      key carries the new value and `now` as its update time, keeps its
      creation time if it was there and gets `now` as creation time if
      it was not; every other key is untouched. */
  function Upserted(m: map<string, Entry>, key: string, value: string, now: string): (r: map<string, Entry>)
    ensures r.Keys == m.Keys + {key}
    ensures r[key].value == value && r[key].updatedAt == now
    ensures key in m ==> r[key].createdAt == m[key].createdAt
    ensures key !in m ==> r[key].createdAt == r[key].updatedAt == now
    ensures forall k :: k in m && k != key ==> r[k] == m[k]
  {
    m[key := Entry(value, if key in m then m[key].createdAt else now, now)]
  }

  /** Two updates of one key: the later value and time win, and the
      creation time is that of the first write ever made to the key. */
  lemma UpsertTwice(m: map<string, Entry>, key: string, v1: string, t1: string, v2: string, t2: string)
    ensures Upserted(Upserted(m, key, v1, t1), key, v2, t2)
         == m[key := Entry(v2, if key in m then m[key].createdAt else t1, t2)]
  {
  }

  /** Updates of different keys do not interfere, so their order does not matter. */
  lemma UpsertCommutes(m: map<string, Entry>, k1: string, v1: string, t1: string, k2: string, v2: string, t2: string)
    requires k1 != k2
    ensures Upserted(Upserted(m, k1, v1, t1), k2, v2, t2) == Upserted(Upserted(m, k2, v2, t2), k1, v1, t1)
  {
  }

  /** The `_metadata` table of one open database. Every update commits
      immediately, so only the committed contents are modelled. */
  class MetadataTable {
    var entries: map<string, Entry>

    /** `_ensure_metadata_table` on a database that has no metadata yet. */
    constructor ()
      ensures entries == map[]
    {
      entries := map[];
    }

    /** `_update_metadata(conn, key, value)`. */
    method Update(key: string, value: string, now: string)
      modifies this
      ensures entries == Upserted(old(entries), key, value, now)
    {
      if key in entries {
        var existing := entries[key];
        entries := entries[key := Entry(value, existing.createdAt, now)];
      } else {
        entries := entries[key := Entry(value, now, now)];
      }
    }
  }
}
