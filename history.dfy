/**
 * The process-wide history: an append-only list of snapshots, loaded once at
 * start-up and extended by each successful scrape.
 */
module History {
  import opened Wrappers
  import opened Snapshots

  /** What `/api/latest` answers: the empty object `{}` or the newest snapshot. */
  datatype LatestView = EmptyMarker | Entry(snapshot: Snapshot)

  class Store {
    /** The snapshots in the order they were appended. */
    var entries: seq<Snapshot>

    /**
     * Start-up: the contents of the history file when it exists, else an
     * empty history. The file's JSON decoding is not modelled; `persisted`
     * is what it decodes to.
     */
    constructor Load(persisted: Option<seq<Snapshot>>)
      ensures entries == if persisted.Some? then persisted.value else []
    {
      entries := if persisted.Some? then persisted.value else [];
    }

    /** `history.append(...)`: every earlier entry stays as it was and the new one comes last. */
    method Append(s: Snapshot)
      modifies this
      ensures entries == old(entries) + [s]
      ensures Latest() == Entry(s)
    {
      entries := entries + [s];
    }

    /** `history[-1] if history else {}` */
    function Latest(): (r: LatestView)
      reads this
      ensures r.EmptyMarker? <==> entries == []
      ensures r.Entry? ==> r.snapshot == entries[|entries| - 1]
    {
      if entries == [] then EmptyMarker else Entry(entries[|entries| - 1])
    }

    /**
     * The whole history, oldest first, as `/api/history` serves it: empty
     * exactly when `/api/latest` answers `{}`, and otherwise ending with the
     * snapshot `/api/latest` answers.
     */
    function All(): (r: seq<Snapshot>)
      reads this
      ensures r == [] <==> Latest().EmptyMarker?
      ensures Latest().Entry? ==> r[|r| - 1] == Latest().snapshot
    {
      entries
    }
  }
}
