/**
 * One scrape: the pets found on the page become a name-to-value map, which is
 * appended to the history with the time of the scrape. A scrape that fails
 * records nothing.
 */
module Ingest {
  import opened Wrappers
  import opened Snapshots
  import opened ValueText
  import opened History

  /** What the loop body computes for each item, in page order: its name and its int-or-zero value. */
  function Parsed(items: seq<Item>): (r: seq<(string, int)>)
    ensures |r| == |items|
    ensures forall i :: 0 <= i < |items| ==> r[i] == (items[i].name, ValueOf(items[i].valueText))
  {
    seq(|items|, i requires 0 <= i < |items| => (items[i].name, ValueOf(items[i].valueText)))
  }

  /** `d[name] = value` for every pair in order, starting from an empty dict: every name becomes a key. */
  function Assign(pairs: seq<(string, int)>): (d: map<string, int>)
    ensures forall i :: 0 <= i < |pairs| ==> pairs[i].0 in d
    decreases |pairs|
  {
    if pairs == [] then map[]
    else
      var init := pairs[..|pairs| - 1];
      var last := pairs[|pairs| - 1];
      assert forall i :: 0 <= i < |init| ==> init[i] == pairs[i];
      Assign(init)[last.0 := last.1]
  }

  /** The map the scrape loop builds: every name on the page is one of its keys. */
  function PetValues(items: seq<Item>): (d: map<string, int>)
    ensures forall i :: 0 <= i < |items| ==> items[i].name in d
  {
    var pairs := Parsed(items);
    assert forall i :: 0 <= i < |items| ==> pairs[i].0 == items[i].name;
    Assign(pairs)
  }

  /** Every key of the dict is the name of some pair. */
  lemma {:induction false} AssignHasOnlyGivenKeys(pairs: seq<(string, int)>, n: string)
    requires n in Assign(pairs)
    ensures exists i :: 0 <= i < |pairs| && pairs[i].0 == n
    decreases |pairs|
  {
    var init := pairs[..|pairs| - 1];
    if n != pairs[|pairs| - 1].0 {
      AssignHasOnlyGivenKeys(init, n);
      var i :| 0 <= i < |init| && init[i].0 == n;
      assert pairs[i].0 == n;
    }
  }

  lemma {:induction false} AssignLastWins(pairs: seq<(string, int)>, i: nat)
    requires i < |pairs|
    requires forall j :: i < j < |pairs| ==> pairs[j].0 != pairs[i].0
    ensures pairs[i].0 in Assign(pairs) && Assign(pairs)[pairs[i].0] == pairs[i].1
    decreases |pairs|
  {
    if i < |pairs| - 1 {
      var init := pairs[..|pairs| - 1];
      assert init[i] == pairs[i];
      AssignLastWins(init, i);
    }
  }

  /** The map has no names other than those on the page. */
  lemma {:induction false} PetValuesKeys(items: seq<Item>)
    ensures forall n :: n in PetValues(items) ==> exists i :: 0 <= i < |items| && items[i].name == n
  {
    var pairs := Parsed(items);
    forall n | n in PetValues(items) ensures exists i :: 0 <= i < |items| && items[i].name == n {
      AssignHasOnlyGivenKeys(pairs, n);
      var i :| 0 <= i < |pairs| && pairs[i].0 == n;
      assert items[i].name == n;
    }
  }

  /** A name maps to the value of its last occurrence on the page. */
  lemma {:induction false} PetValuesLastWins(items: seq<Item>, i: nat)
    requires i < |items|
    requires forall j :: i < j < |items| ==> items[j].name != items[i].name
    ensures items[i].name in PetValues(items)
    ensures PetValues(items)[items[i].name] == ValueOf(items[i].valueText)
  {
    AssignLastWins(Parsed(items), i);
  }

  /** The `for pet_div in ...` loop that fills `pet_values`. */
  method BuildPetValues(items: seq<Item>) returns (petValues: map<string, int>)
    ensures petValues == PetValues(items)
  {
    petValues := map[];
    var i := 0;
    while i < |items|
      invariant 0 <= i <= |items|
      invariant petValues == Assign(Parsed(items)[..i])
    {
      var name := items[i].name;
      var value := ValueOf(items[i].valueText);
      petValues := petValues[name := value];
      assert Parsed(items)[..i + 1][..i] == Parsed(items)[..i];
      i := i + 1;
    }
    assert Parsed(items)[..i] == Parsed(items);
  }

  /**
   * `fetch_pet_values`: `page` is the list of items the request and the HTML
   * parse produced, or `None` when either raised; `now` is the timestamp.
   */
  method FetchPetValues(store: Store, page: Option<seq<Item>>, now: string)
    modifies store
    ensures page.None? ==> store.entries == old(store.entries)
    ensures page.Some? ==> store.entries == old(store.entries) + [Snapshot(now, PetValues(page.value))]
    ensures page.Some? ==> store.Latest() == Entry(Snapshot(now, PetValues(page.value)))
  {
    if page.Some? {
      var petValues := BuildPetValues(page.value);
      store.Append(Snapshot(now, petValues));
    }
  }

  /** One run of the job: when it ran, and what the page gave (or `None`). */
  datatype Cycle = Cycle(now: string, page: Option<seq<Item>>)

  /** The snapshot a successful run appends. */
  function SnapshotOf(c: Cycle): Snapshot
    requires c.page.Some?
  {
    Snapshot(c.now, PetValues(c.page.value))
  }

  /** The snapshots a run of jobs appends, in the order the jobs ran. */
  function Recorded(cycles: seq<Cycle>): seq<Snapshot>
    decreases |cycles|
  {
    if cycles == [] then []
    else
      var c := cycles[|cycles| - 1];
      Recorded(cycles[..|cycles| - 1])
        + (if c.page.Some? then [SnapshotOf(c)] else [])
  }

  /** No run appends more than one snapshot. */
  lemma {:induction false} RecordedAtMostOnePerCycle(cycles: seq<Cycle>)
    ensures |Recorded(cycles)| <= |cycles|
    decreases |cycles|
  {
    if cycles != [] {
      RecordedAtMostOnePerCycle(cycles[..|cycles| - 1]);
    }
  }

  /** When every run succeeds, run i appends snapshot i, with its own timestamp and values. */
  lemma {:induction false} RecordedWhenAllSucceed(cycles: seq<Cycle>)
    requires forall i :: 0 <= i < |cycles| ==> cycles[i].page.Some?
    ensures |Recorded(cycles)| == |cycles|
    ensures forall i :: 0 <= i < |cycles| ==> Recorded(cycles)[i] == SnapshotOf(cycles[i])
    decreases |cycles|
  {
    if cycles != [] {
      var init := cycles[..|cycles| - 1];
      var last := cycles[|cycles| - 1];
      RecordedWhenAllSucceed(init);
      assert Recorded(cycles) == Recorded(init) + [SnapshotOf(last)];
      forall i | 0 <= i < |cycles| ensures Recorded(cycles)[i] == SnapshotOf(cycles[i]) {
        if i < |init| {
          assert Recorded(cycles)[i] == Recorded(init)[i];
          assert cycles[i] == init[i];
        }
      }
    }
  }

  /**
   * The life of the process: the history is loaded, then the job runs once at
   * start-up and after that whenever the scheduler fires it.
   */
  method RunCycles(persisted: Option<seq<Snapshot>>, cycles: seq<Cycle>) returns (store: Store)
    ensures fresh(store)
    ensures store.All() == (if persisted.Some? then persisted.value else []) + Recorded(cycles)
  {
    store := new Store.Load(persisted);
    ghost var start := store.entries;
    var i := 0;
    while i < |cycles|
      invariant 0 <= i <= |cycles|
      invariant store.entries == start + Recorded(cycles[..i])
    {
      FetchPetValues(store, cycles[i].page, cycles[i].now);
      assert cycles[..i + 1][..i] == cycles[..i];
      i := i + 1;
    }
    assert cycles[..i] == cycles;
  }
}
