/** The dump of a store, and a snapshot as the steps between the awaits of a save. */
module Dumping {
  import opened Options
  import opened StoreSpec
  import opened Printing

  datatype Saved = SavedText(text: string) | SavedList(elems: seq<string>) | SavedHash(fields: map<string, string>)

  datatype Serialized = Serialized(value: Saved, ttl: Option<int>)

  type Dump = map<string, Serialized>

  /** The one name that cannot be an own property set by assignment. */
  const PROTO := "__proto__"

  function SavedOf(v: Value): Saved {
    match v
    case Str(x) => SavedText(x)
    case List(l) => SavedList(l)
    case Hash(h) => SavedHash(h.at - {PROTO})
  }

  function TtlSaved(s: State, now: int, k: string): Option<int> {
    if k in s.ttl.deadlines then Some(Seconds(s.ttl.deadlines[k] - now)) else None
  }

  /** The dump of a store: every key but one with its value and its remaining seconds. */
  function DumpOf(s: State, now: int): Dump {
    map k | k in s.values.at && k != PROTO :: Serialized(SavedOf(s.values.at[k]), TtlSaved(s, now, k))
  }

  // ----- Saving -----

  /** The file, the mutation count it was saved at, and a save that is being written with the count it
      was taken at. */
  datatype Snapshot = Snapshot(disk: Option<Dump>, lastSaved: nat, saving: Option<(Dump, nat)>)

  /** A save up to its first await, unless one is pending: the count is taken first; listing and
      reading every key reclaims the expired ones. */
  function Taken(s: State, d: Snapshot, now: int): (State, Snapshot) {
    if d.saving.Some? then (s, d)
    else
      var u := Compacted(s, now);
      (u, d.(saving := Some((DumpOf(u, now), s.dirty))))
  }

  /** The file has been written and renamed. */
  function Finished(d: Snapshot): Snapshot {
    if d.saving.None? then d else Snapshot(Some(d.saving.value.0), d.saving.value.1, None)
  }

  /** Writing or renaming has failed. */
  function Abandoned(d: Snapshot): Snapshot {
    d.(saving := None)
  }

  /** The timer's check: save only if the count has moved. */
  function Checked(s: State, d: Snapshot, now: int): (State, Snapshot) {
    if s.dirty != d.lastSaved then Taken(s, d, now) else (s, d)
  }
}
