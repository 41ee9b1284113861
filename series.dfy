/**
 * The chart page's script: one line per pet name ever seen, in the order the
 * names first appear in the history, each holding the snapshots that contain
 * that name (timestamps on x, values on y). A snapshot without the name gives
 * that line no point; nothing is filled in with zero.
 */
module Series {
  import opened Snapshots

  /**
   * The names of the `pets` set, the union of the keys of every snapshot: a
   * name is in it exactly when it has a first appearance.
   */
  function KeyUniverse(h: seq<Snapshot>): (u: set<string>)
    ensures forall k :: k in u <==> FirstSeen(h, k) < |h|
    decreases |h|
  {
    if h == [] then {}
    else
      var init := h[..|h| - 1];
      var u := KeyUniverse(init) + h[|h| - 1].values.Keys;
      assert forall k :: k in u <==> FirstSeen(h, k) < |h| by {
        forall k ensures k in u <==> FirstSeen(h, k) < |h| {
          assert FirstSeen(h, k) == (if FirstSeen(init, k) < |init| then FirstSeen(init, k)
            else if k in h[|h| - 1].values then |h| - 1 else |h|);
        }
      }
      u
  }

  /** The index of the first snapshot that contains `k`, or `|h|` when none does. */
  function FirstSeen(h: seq<Snapshot>, k: string): (r: nat)
    ensures r <= |h|
    ensures r < |h| ==> k in h[r].values
    ensures forall j :: 0 <= j < r ==> k !in h[j].values
    decreases |h|
  {
    if h == [] then 0
    else
      var init := h[..|h| - 1];
      var f := FirstSeen(init, k);
      assert forall j :: 0 <= j < f ==> init[j] == h[j];
      if f < |init| then (assert init[f] == h[f]; f)
      else if k in h[|h| - 1].values then |h| - 1
      else |h|
  }

  /** A name is in the `pets` set exactly when some snapshot of the history has it. */
  lemma {:induction false} KeyUniverseMembers(h: seq<Snapshot>, k: string)
    ensures k in KeyUniverse(h) <==> exists j :: 0 <= j < |h| && k in h[j].values
  {
    if k in KeyUniverse(h) {
      assert k in h[FirstSeen(h, k)].values;
    }
  }

  /** The indices of the snapshots for which `entry.values[pet] !== undefined` is meant to hold. */
  function Hits(h: seq<Snapshot>, k: string): (r: seq<nat>)
    ensures forall i :: 0 <= i < |r| ==> r[i] < |h| && k in h[r[i]].values
    ensures forall i, i' :: 0 <= i < i' < |r| ==> r[i] < r[i']
    ensures forall j :: 0 <= j < |h| ==> (j in r <==> k in h[j].values)
    decreases |h|
  {
    if h == [] then []
    else
      var init := h[..|h| - 1];
      assert forall j :: 0 <= j < |init| ==> init[j] == h[j];
      Hits(init, k) + (if k in h[|h| - 1].values then [|h| - 1] else [])
  }

  /** One Plotly trace: `{x, y, name}`; the constant `mode` is not modelled. */
  datatype Trace = Trace(name: string, x: seq<string>, y: seq<int>)

  /** The trace the inner `history.forEach` builds for `pet`; `TraceOfHits` says which points it holds. */
  function TraceOf(h: seq<Snapshot>, pet: string): (t: Trace)
    ensures t.name == pet && |t.x| == |t.y|
    decreases |h|
  {
    if h == [] then Trace(pet, [], [])
    else
      var prev := TraceOf(h[..|h| - 1], pet);
      var e := h[|h| - 1];
      if pet in e.values then Trace(pet, prev.x + [e.timestamp], prev.y + [e.values[pet]])
      else prev
  }

  /** Point i of the line of `pet` is the timestamp and value of the i-th snapshot that contains `pet`. */
  lemma {:induction false} TraceOfHits(h: seq<Snapshot>, pet: string)
    ensures |TraceOf(h, pet).x| == |Hits(h, pet)|
    ensures forall i :: 0 <= i < |Hits(h, pet)| ==>
      TraceOf(h, pet).x[i] == h[Hits(h, pet)[i]].timestamp && TraceOf(h, pet).y[i] == h[Hits(h, pet)[i]].values[pet]
    decreases |h|
  {
    if h != [] {
      var init := h[..|h| - 1];
      TraceOfHits(init, pet);
      assert forall j :: 0 <= j < |init| ==> init[j] == h[j];
      assert Hits(h, pet) == Hits(init, pet) + (if pet in h[|h| - 1].values then [|h| - 1] else []);
    }
  }

  /** A name that was ever seen has a line, and the line starts at the snapshot that first held it. */
  lemma {:induction false} TraceStartsAtFirstSeen(h: seq<Snapshot>, pet: string)
    requires pet in KeyUniverse(h)
    ensures FirstSeen(h, pet) < |h|
    ensures |TraceOf(h, pet).x| > 0
    ensures TraceOf(h, pet).x[0] == h[FirstSeen(h, pet)].timestamp
    ensures TraceOf(h, pet).y[0] == h[FirstSeen(h, pet)].values[pet]
  {
    TraceOfHits(h, pet);
    var j := FirstSeen(h, pet);
    var r := Hits(h, pet);
    assert j in r;
    var i :| 0 <= i < |r| && r[i] == j;
  }

  /** A name that was never seen has an empty line. */
  lemma {:induction false} UnseenNameHasNoPoints(h: seq<Snapshot>, pet: string)
    requires pet !in KeyUniverse(h)
    ensures Hits(h, pet) == []
    ensures TraceOf(h, pet).x == [] && TraceOf(h, pet).y == []
    decreases |h|
  {
    if h != [] {
      UnseenNameHasNoPoints(h[..|h| - 1], pet);
    }
  }

  /** No name occurs twice. */
  predicate Distinct(names: seq<string>)
  {
    forall i, i' :: 0 <= i < i' < |names| ==> names[i] != names[i']
  }

  /** A list without repeats that holds exactly the elements of `s` is as long as `s` is large. */
  lemma {:induction false} DistinctCount(names: seq<string>, s: set<string>)
    requires Distinct(names)
    requires forall i :: 0 <= i < |names| ==> names[i] in s
    requires forall k :: k in s ==> k in names
    ensures |names| == |s|
    decreases |names|
  {
    if names == [] {
      assert s == {};
    } else {
      var init := names[..|names| - 1];
      var last := names[|names| - 1];
      forall k | k in s - {last} ensures k in init {
        var i :| 0 <= i < |names| && names[i] == k;
        assert i < |init| && init[i] == k;
      }
      DistinctCount(init, s - {last});
    }
  }

  /**
   * `names` is what iterating the `pets` set yields: each key of the history
   * exactly once, ordered by the snapshot in which the key first appears.
   */
  predicate ListsKeyUniverse(h: seq<Snapshot>, names: seq<string>)
  {
    && Distinct(names)
    && (forall i :: 0 <= i < |names| ==> names[i] in KeyUniverse(h))
    && (forall k :: k in KeyUniverse(h) ==> k in names)
    && (forall i, i' :: 0 <= i < i' < |names| ==>
          FirstSeen(h, names[i]) <= FirstSeen(h, names[i']))
  }

  /**
   * `history.forEach(entry => Object.keys(entry.values).forEach(pet => pets.add(pet)))`:
   * the order in which one snapshot yields its keys is left unspecified, so
   * the inner loop takes them in any order.
   */
  method CollectPets(h: seq<Snapshot>) returns (pets: seq<string>)
    ensures ListsKeyUniverse(h, pets)
  {
    pets := [];
    var j := 0;
    while j < |h|
      invariant 0 <= j <= |h|
      invariant Distinct(pets)
      invariant forall k :: k in pets <==> FirstSeen(h, k) < j
      invariant forall i, i' :: 0 <= i < i' < |pets| ==> FirstSeen(h, pets[i]) <= FirstSeen(h, pets[i'])
    {
      var more := AddAll(pets, h[j].values.Keys);
      forall i | |pets| <= i < |more| ensures FirstSeen(h, more[i]) == j {
      }
      pets := more;
      j := j + 1;
    }
  }

  /**
   * `Object.keys(entry.values).forEach(pet => pets.add(pet))` for one
   * snapshot: a name already in the set keeps its place, a new one goes at
   * the end.
   */
  method AddAll(pets: seq<string>, keys: set<string>) returns (more: seq<string>)
    requires Distinct(pets)
    ensures Distinct(more)
    ensures |pets| <= |more| && more[..|pets|] == pets
    ensures forall k :: k in more <==> k in pets || k in keys
    ensures forall i :: |pets| <= i < |more| ==> more[i] in keys && more[i] !in pets
  {
    more := pets;
    var rest := keys;
    while rest != {}
      invariant rest <= keys
      invariant Distinct(more)
      invariant |pets| <= |more| && more[..|pets|] == pets
      invariant forall k :: k in more <==> k in pets || (k in keys && k !in rest)
      invariant forall i :: |pets| <= i < |more| ==> more[i] in keys && more[i] !in pets
      decreases |rest|
    {
      var k :| k in rest;
      if k !in more {
        more := more + [k];
      }
      rest := rest - {k};
    }
  }

  /** The inner `history.forEach` that fills `x` and `y` for one pet. */
  method BuildTrace(h: seq<Snapshot>, pet: string) returns (t: Trace)
    ensures t == TraceOf(h, pet)
  {
    var x: seq<string> := [];
    var y: seq<int> := [];
    var j := 0;
    while j < |h|
      invariant 0 <= j <= |h|
      invariant Trace(pet, x, y) == TraceOf(h[..j], pet)
    {
      if pet in h[j].values {
        x := x + [h[j].timestamp];
        y := y + [h[j].values[pet]];
      }
      assert h[..j + 1][..j] == h[..j];
      j := j + 1;
    }
    assert h[..j] == h;
    t := Trace(pet, x, y);
  }

  /** The names of the traces, in order. */
  function Names(traces: seq<Trace>): (r: seq<string>)
    ensures |r| == |traces| && forall i :: 0 <= i < |traces| ==> r[i] == traces[i].name
  {
    seq(|traces|, i requires 0 <= i < |traces| => traces[i].name)
  }

  /** `pets.forEach` over the listed names: one trace per name, in the same order. */
  method BuildTraces(h: seq<Snapshot>, pets: seq<string>) returns (traces: seq<Trace>)
    ensures Names(traces) == pets
    ensures forall i :: 0 <= i < |traces| ==> traces[i] == TraceOf(h, pets[i])
  {
    traces := [];
    var i := 0;
    while i < |pets|
      invariant 0 <= i <= |pets|
      invariant |traces| == i
      invariant forall m :: 0 <= m < i ==> traces[m] == TraceOf(h, pets[m])
    {
      var t := BuildTrace(h, pets[i]);
      traces := traces + [t];
      i := i + 1;
    }
  }

  /** The whole script up to `Plotly.newPlot`: one trace per pet, in the order of the `pets` set. */
  method Materialize(h: seq<Snapshot>) returns (traces: seq<Trace>)
    ensures ListsKeyUniverse(h, Names(traces))
    ensures forall i :: 0 <= i < |traces| ==> traces[i] == TraceOf(h, traces[i].name)
    ensures |traces| == |KeyUniverse(h)|
    ensures h == [] ==> traces == []
  {
    var pets := CollectPets(h);
    traces := BuildTraces(h, pets);
    DistinctCount(pets, KeyUniverse(h));
  }

  /**
   * The names that every plain JavaScript object inherits from
   * `Object.prototype`, for which `entry.values[pet]` is never `undefined`.
   */
  const InheritedNames: set<string> := {
    "constructor", "hasOwnProperty", "isPrototypeOf", "propertyIsEnumerable",
    "toLocaleString", "toString", "valueOf", "__defineGetter__",
    "__defineSetter__", "__lookupGetter__", "__lookupSetter__", "__proto__"
  }

  /** The snapshots the script as written plots for `k`: its `!== undefined` test also accepts inherited names. */
  function HitsAsWritten(h: seq<Snapshot>, k: string): (r: seq<nat>)
    ensures forall i :: 0 <= i < |r| ==> r[i] < |h|
    ensures forall j :: 0 <= j < |h| ==> (j in r <==> k in h[j].values || k in InheritedNames)
    decreases |h|
  {
    if h == [] then []
    else
      var init := h[..|h| - 1];
      assert forall j :: 0 <= j < |init| ==> init[j] == h[j];
      HitsAsWritten(init, k) + (if k in h[|h| - 1].values || k in InheritedNames then [|h| - 1] else [])
  }

  /** For every other name the test as written plots exactly the intended points. */
  lemma {:induction false} HitsAsWrittenAgrees(h: seq<Snapshot>, k: string)
    requires k !in InheritedNames
    ensures HitsAsWritten(h, k) == Hits(h, k)
    decreases |h|
  {
    if h != [] {
      HitsAsWrittenAgrees(h[..|h| - 1], k);
    }
  }

  /**
   * A pet named `constructor` gets a point at a snapshot that does not list
   * it, whose y value is the inherited function rather than a number.
   */
  lemma {:induction false} InheritedNameCounterexample()
    ensures var h := [Snapshot("t1", map[]), Snapshot("t2", map["constructor" := 5])];
      HitsAsWritten(h, "constructor") == [0, 1] && Hits(h, "constructor") == [1]
  {
    var h := [Snapshot("t1", map[]), Snapshot("t2", map["constructor" := 5])];
    assert h[..1] == [h[0]];
    assert h[..1][..0] == [];
  }

  /** Three snapshots where each pet is missing from one. */
  function GappedHistory(): seq<Snapshot>
  {
    [Snapshot("t1", map["A" := 1]), Snapshot("t2", map["B" := 2]), Snapshot("t3", map["A" := 3, "B" := 4])]
  }

  /** A new snapshot adds at most one point to a line: its own, at the end, when it has the pet. */
  lemma {:induction false} TraceOfAppend(h: seq<Snapshot>, e: Snapshot, pet: string)
    ensures TraceOf(h + [e], pet) == if pet in e.values
      then Trace(pet, TraceOf(h, pet).x + [e.timestamp], TraceOf(h, pet).y + [e.values[pet]])
      else TraceOf(h, pet)
  {
    assert (h + [e])[..|h|] == h;
  }

  /** The point a snapshot contributes to the line of `pet`: none, or its timestamp and value. */
  function PointX(e: Snapshot, pet: string): seq<string> {
    if pet in e.values then [e.timestamp] else []
  }

  function PointY(e: Snapshot, pet: string): seq<int> {
    if pet in e.values then [e.values[pet]] else []
  }

  /** The line of a three-snapshot history is made of the points of the three snapshots, in order. */
  lemma {:induction false} TraceOfThree(s1: Snapshot, s2: Snapshot, s3: Snapshot, pet: string)
    ensures TraceOf([s1, s2, s3], pet).x == PointX(s1, pet) + PointX(s2, pet) + PointX(s3, pet)
    ensures TraceOf([s1, s2, s3], pet).y == PointY(s1, pet) + PointY(s2, pet) + PointY(s3, pet)
  {
    TraceOfAppend([], s1, pet);
    TraceOfAppend([] + [s1], s2, pet);
    TraceOfAppend([] + [s1] + [s2], s3, pet);
    assert [] + [s1] + [s2] + [s3] == [s1, s2, s3];
  }

  /** `A` is missing from the second snapshot: its line joins the first and the third. */
  lemma {:induction false} GapIsSkippedForA()
    ensures TraceOf(GappedHistory(), "A") == Trace("A", ["t1", "t3"], [1, 3])
  {
    var s1, s2, s3 := Snapshot("t1", map["A" := 1]), Snapshot("t2", map["B" := 2]), Snapshot("t3", map["A" := 3, "B" := 4]);
    assert GappedHistory() == [s1, s2, s3];
    TraceOfThree(s1, s2, s3, "A");
    assert PointX(s1, "A") == ["t1"] && PointY(s1, "A") == [1];
    assert PointX(s2, "A") == [] && PointY(s2, "A") == [];
    assert PointX(s3, "A") == ["t3"] && PointY(s3, "A") == [3];
  }

  /** `B` is missing from the first snapshot: its line starts at the second. */
  lemma {:induction false} GapIsSkippedForB()
    ensures TraceOf(GappedHistory(), "B") == Trace("B", ["t2", "t3"], [2, 4])
  {
    var s1, s2, s3 := Snapshot("t1", map["A" := 1]), Snapshot("t2", map["B" := 2]), Snapshot("t3", map["A" := 3, "B" := 4]);
    assert GappedHistory() == [s1, s2, s3];
    TraceOfThree(s1, s2, s3, "B");
    assert PointX(s1, "B") == [] && PointY(s1, "B") == [];
    assert PointX(s2, "B") == ["t2"] && PointY(s2, "B") == [2];
    assert PointX(s3, "B") == ["t3"] && PointY(s3, "B") == [4];
  }
}
