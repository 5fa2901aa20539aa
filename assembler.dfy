/** Inventory assembler: the part of `create_brightway_database` that turns
    activities and exchanges into Brightway process nodes keyed
    `(db_name, code)`, each with its exchange edges. */
module Assembler {
  import opened Values
  import opened Lci

  /** Brightway's code for the normal distribution. */
  const NormalDistribution := 3
  const ProcessType := "process"
  const GenericPrefix := "generic_"
  const BiospherePrefix := "bio_"

  datatype EdgeType = Production | Technosphere | Biosphere

  /** `'uncertainty type'`, `'loc'` and `'scale'` of an edge. */
  datatype Uncertainty = Uncertainty(uncertaintyType: int, loc: Float, scale: Float)

  /** One Brightway exchange dictionary; an absent key is `None`.
      `categories` holds the one-element tuple `(category,)`. */
  datatype Edge = Edge(
    amount: Float,
    unit: string,
    input: Option<Key>,
    edgeType: Option<EdgeType>,
    name: Option<string>,
    categories: Option<seq<string>>,
    uncertainty: Option<Uncertainty>)

  /** One Brightway activity dictionary. */
  datatype Node = Node(
    name: string,
    unit: string,
    location: string,
    nodeType: string,
    exchanges: seq<Edge>,
    productionAmount: Float)

  /** `next((act for act in activities if act['name'] == name), None)`, as
      the index of that activity. */
  function FirstNamed(acts: seq<Activity>, name: string): (r: Option<nat>)
    ensures r.None? ==> forall k :: 0 <= k < |acts| ==> acts[k].name != name
    ensures r.Some? ==> r.value < |acts| && acts[r.value].name == name
                        && forall k :: 0 <= k < r.value ==> acts[k].name != name
  {
    if acts == [] then None
    else if acts[0].name == name then Some(0)
    else
      match FirstNamed(acts[1..], name)
      case None => None
      case Some(i) => Some(i + 1)
  }

  /** The exchanges of one activity, in sheet order. */
  function ExchangesOf(code: string, excs: seq<Exchange>): (r: seq<Exchange>)
    ensures forall e :: e in r <==> e in excs && e.activityCode == code
  {
    if excs == [] then []
    else (if excs[0].activityCode == code then [excs[0]] else []) + ExchangesOf(code, excs[1..])
  }

  /** Selecting an activity's exchanges keeps their order: the exchanges
      of a list are those of its two parts, one after the other. */
  lemma {:induction false} ExchangesOfAppend(code: string, xs: seq<Exchange>, ys: seq<Exchange>)
    ensures ExchangesOf(code, xs + ys) == ExchangesOf(code, xs) + ExchangesOf(code, ys)
  {
    if xs == [] {
      assert xs + ys == ys;
    } else {
      assert (xs + ys)[0] == xs[0] && (xs + ys)[1..] == xs[1..] + ys;
      ExchangesOfAppend(code, xs[1..], ys);
    }
  }

  /** The edge one exchange becomes, for the node `self`. */
  function EdgeOf(dbName: string, self: Key, e: Exchange, acts: seq<Activity>,
                  linked: map<string, Key>)
    : Edge
  {
    var uncertainty :=
      if e.uncertainty.Some? then Some(Uncertainty(NormalDistribution, e.amount, e.uncertainty.value))
      else None;
    if e.kind == "production" then
      Edge(e.amount, e.unit, Some(self), Some(Production), None, None, uncertainty)
    else if e.kind == "input" then
      match FirstNamed(acts, e.flowName)
      case Some(i) =>
        Edge(e.amount, e.unit, Some(Key(dbName, acts[i].code)), Some(Technosphere), None, None, uncertainty)
      case None =>
        Edge(e.amount, e.unit, Some(Key(dbName, GenericPrefix + e.flowName)), Some(Technosphere),
             Some(e.flowName), None, uncertainty)
    else if e.kind == "emission" || e.kind == "resource" then
      var categories := if e.category.Some? && e.category.value != "" then Some([e.category.value]) else None;
      if e.flowName in linked then
        Edge(e.amount, e.unit, Some(linked[e.flowName]), Some(Biosphere), None, categories, uncertainty)
      else
        Edge(e.amount, e.unit, Some(Key(dbName, BiospherePrefix + e.flowName)), Some(Biosphere),
             Some(e.flowName), categories, uncertainty)
    else
      Edge(e.amount, e.unit, None, None, None, None, uncertainty)
  }

  /** The edges of a node: one per exchange, in the same order. */
  function EdgesOf(dbName: string, self: Key, excs: seq<Exchange>, acts: seq<Activity>,
                   linked: map<string, Key>)
    : (r: seq<Edge>)
  {
    seq(|excs|, j requires 0 <= j < |excs| => EdgeOf(dbName, self, excs[j], acts, linked))
  }

  /** The node of one activity. */
  function NodeOf(dbName: string, a: Activity, acts: seq<Activity>, excs: seq<Exchange>,
                  linked: map<string, Key>)
    : Node
  {
    Node(a.name, a.unit, a.location, ProcessType,
         EdgesOf(dbName, Key(dbName, a.code), ExchangesOf(a.code, excs), acts, linked),
         a.referenceProduction)
  }

  /** `db_data` after the loop has handled `part` (a prefix of `acts`): a
      later activity with the same code overwrites the node of an earlier
      one. */
  function InventoryOf(dbName: string, acts: seq<Activity>, part: seq<Activity>, excs: seq<Exchange>,
                       linked: map<string, Key>)
    : (r: map<Key, Node>)
    ensures r.Keys == set a | a in part :: Key(dbName, a.code)
  {
    if part == [] then map[]
    else
      var last := part[|part| - 1];
      var before := InventoryOf(dbName, acts, part[..|part| - 1], excs, linked);
      assert forall a :: a in part <==> a in part[..|part| - 1] || a == last;
      before[Key(dbName, last.code) := NodeOf(dbName, last, acts, excs, linked)]
  }

  function Inventory(dbName: string, acts: seq<Activity>, excs: seq<Exchange>, linked: map<string, Key>)
    : map<Key, Node>
  {
    InventoryOf(dbName, acts, acts, excs, linked)
  }

  /** The body of the inner loop of `create_brightway_database`: the
      exchange dictionary built for one exchange. */
  method BuildEdge(dbName: string, activityKey: Key, exc: Exchange, acts: seq<Activity>,
                   linked: map<string, Key>)
    returns (edge: Edge)
    ensures edge == EdgeOf(dbName, activityKey, exc, acts, linked)
  {
    var input: Option<Key> := None;
    var edgeType: Option<EdgeType> := None;
    var name: Option<string> := None;
    var categories: Option<seq<string>> := None;
    if exc.kind == "production" {
      input, edgeType := Some(activityKey), Some(Production);
    } else if exc.kind == "input" {
      var matching := FirstNamed(acts, exc.flowName);
      if matching.Some? {
        input, edgeType := Some(Key(dbName, acts[matching.value].code)), Some(Technosphere);
      } else {
        input, edgeType := Some(Key(dbName, GenericPrefix + exc.flowName)), Some(Technosphere);
        name := Some(exc.flowName);
      }
    } else if exc.kind == "emission" || exc.kind == "resource" {
      if exc.flowName in linked {
        input := Some(linked[exc.flowName]);
      } else {
        input := Some(Key(dbName, BiospherePrefix + exc.flowName));
        name := Some(exc.flowName);
      }
      edgeType := Some(Biosphere);
      if exc.category.Some? && exc.category.value != "" {
        categories := Some([exc.category.value]);
      }
    }
    var uncertainty: Option<Uncertainty> := None;
    if exc.uncertainty.Some? {
      uncertainty := Some(Uncertainty(NormalDistribution, exc.amount, exc.uncertainty.value));
    }
    edge := Edge(exc.amount, exc.unit, input, edgeType, name, categories, uncertainty);
  }

  /** The inner loop of `create_brightway_database`: the exchange list of
      one node. */
  method BuildEdges(dbName: string, activityKey: Key, activityExchanges: seq<Exchange>,
                    acts: seq<Activity>, linked: map<string, Key>)
    returns (bwExchanges: seq<Edge>)
    ensures bwExchanges == EdgesOf(dbName, activityKey, activityExchanges, acts, linked)
  {
    bwExchanges := [];
    var j := 0;
    while j < |activityExchanges|
      invariant 0 <= j <= |activityExchanges|
      invariant bwExchanges == EdgesOf(dbName, activityKey, activityExchanges[..j], acts, linked)
    {
      var edge := BuildEdge(dbName, activityKey, activityExchanges[j], acts, linked);
      bwExchanges := bwExchanges + [edge];
      assert activityExchanges[..j + 1][..j] == activityExchanges[..j];
      j := j + 1;
    }
    assert activityExchanges[..j] == activityExchanges;
  }

  /** The outer loop of `create_brightway_database`: one node per
      activity, stored under its key. */
  method BuildInventory(dbName: string, acts: seq<Activity>, excs: seq<Exchange>, linked: map<string, Key>)
    returns (dbData: map<Key, Node>)
    ensures dbData == Inventory(dbName, acts, excs, linked)
  {
    dbData := map[];
    var i := 0;
    while i < |acts|
      invariant 0 <= i <= |acts|
      invariant dbData == InventoryOf(dbName, acts, acts[..i], excs, linked)
    {
      var activity := acts[i];
      var activityKey := Key(dbName, activity.code);
      var bwExchanges := BuildEdges(dbName, activityKey, ExchangesOf(activity.code, excs), acts, linked);
      InventoryStep(dbName, acts, i, excs, linked);
      dbData := dbData[activityKey := Node(activity.name, activity.unit, activity.location, ProcessType,
                                           bwExchanges, activity.referenceProduction)];
      i := i + 1;
    }
    assert acts[..i] == acts;
  }

  /** One more activity stores its node over the inventory so far. */
  lemma InventoryStep(dbName: string, acts: seq<Activity>, i: nat, excs: seq<Exchange>,
                      linked: map<string, Key>)
    requires i < |acts|
    ensures InventoryOf(dbName, acts, acts[..i + 1], excs, linked)
         == InventoryOf(dbName, acts, acts[..i], excs, linked)[Key(dbName, acts[i].code)
              := NodeOf(dbName, acts[i], acts, excs, linked)]
  {
    assert acts[..i + 1][..i] == acts[..i];
  }

  // ---------------------------------------------------------------------
  // Properties of the inventory
  // ---------------------------------------------------------------------

  /** No two activities share a code. */
  predicate UniqueCodes(acts: seq<Activity>) {
    forall i, j :: 0 <= i < j < |acts| ==> acts[i].code != acts[j].code
  }

  /** The node under an activity's key is the node of the last activity
      with that code: with unique codes, every activity has its own node. */
  lemma {:induction false} LastActivityWins(dbName: string, acts: seq<Activity>, part: seq<Activity>,
                                            excs: seq<Exchange>, linked: map<string, Key>, i: nat)
    requires i < |part|
    requires forall k :: i < k < |part| ==> part[k].code != part[i].code
    ensures InventoryOf(dbName, acts, part, excs, linked)[Key(dbName, part[i].code)]
         == NodeOf(dbName, part[i], acts, excs, linked)
  {
    if i < |part| - 1 {
      LastActivityWins(dbName, acts, part[..|part| - 1], excs, linked, i);
    }
  }

  /** One node per activity key; with unique codes, each activity's node
      carries its name, unit, location, reference production and one edge
      per exchange of its code, in sheet order. */
  lemma NodePerActivity(dbName: string, acts: seq<Activity>, excs: seq<Exchange>,
                        linked: map<string, Key>, i: nat)
    requires UniqueCodes(acts) && i < |acts|
    ensures var inv := Inventory(dbName, acts, excs, linked);
            var a := acts[i];
            && Key(dbName, a.code) in inv
            && inv[Key(dbName, a.code)].name == a.name
            && inv[Key(dbName, a.code)].unit == a.unit
            && inv[Key(dbName, a.code)].location == a.location
            && inv[Key(dbName, a.code)].nodeType == ProcessType
            && inv[Key(dbName, a.code)].productionAmount == a.referenceProduction
            && |inv[Key(dbName, a.code)].exchanges| == |ExchangesOf(a.code, excs)|
  {
    LastActivityWins(dbName, acts, acts, excs, linked, i);
  }

  /** What the edge of an exchange targets. */
  lemma EdgeTargets(dbName: string, self: Key, e: Exchange, acts: seq<Activity>, linked: map<string, Key>)
    ensures var edge := EdgeOf(dbName, self, e, acts, linked);
      && edge.amount == e.amount && edge.unit == e.unit
      && (e.kind == "production" ==> edge.input == Some(self) && edge.edgeType == Some(Production))
      && (e.kind == "input" ==>
            edge.edgeType == Some(Technosphere)
            && ((forall k :: 0 <= k < |acts| ==> acts[k].name != e.flowName) ==>
                  edge.input == Some(Key(dbName, GenericPrefix + e.flowName)))
            && (forall k :: (0 <= k < |acts| && acts[k].name == e.flowName
                              && (forall l :: 0 <= l < k ==> acts[l].name != e.flowName)) ==>
                  edge.input == Some(Key(dbName, acts[k].code))))
      && ((e.kind == "emission" || e.kind == "resource") ==>
            edge.edgeType == Some(Biosphere)
            && edge.input == Some(if e.flowName in linked then linked[e.flowName]
                                  else Key(dbName, BiospherePrefix + e.flowName))
            && (edge.categories.Some? <==> e.category.Some? && e.category.value != "")
            && (edge.categories.Some? ==> edge.categories.value == [e.category.value]))
      && (e.kind !in {"production", "input", "emission", "resource"} ==>
            edge.input.None? && edge.edgeType.None?)
      && (edge.uncertainty.Some? <==> e.uncertainty.Some?)
      && (edge.uncertainty.Some? ==>
            edge.uncertainty.value == Uncertainty(NormalDistribution, e.amount, e.uncertainty.value))
  {
    if e.kind == "input" {
      var r := FirstNamed(acts, e.flowName);
      forall k | 0 <= k < |acts| && acts[k].name == e.flowName
                 && (forall l :: 0 <= l < k ==> acts[l].name != e.flowName)
        ensures r == Some(k)
      {
      }
    }
  }

  /** The four kinds of target of an edge: a node of this inventory (the
      activity itself or another internal activity), a generic technosphere
      placeholder, a generic biosphere placeholder, or a linked biosphere
      flow. */
  predicate KnownTarget(t: Key, inv: map<Key, Node>, dbName: string, linked: map<string, Key>) {
    || t in inv
    || (t.database == dbName && |t.code| >= |GenericPrefix| && t.code[..|GenericPrefix|] == GenericPrefix)
    || (t.database == dbName && |t.code| >= |BiospherePrefix| && t.code[..|BiospherePrefix|] == BiospherePrefix)
    || t in linked.Values
  }

  /** Every edge of every node targets one of the four kinds: in
      particular an internal link never points at a node that is not in
      the inventory. */
  lemma EdgesTargetKnownKeys(dbName: string, acts: seq<Activity>, excs: seq<Exchange>,
                             linked: map<string, Key>, k: Key, j: nat)
    requires k in Inventory(dbName, acts, excs, linked)
    requires j < |Inventory(dbName, acts, excs, linked)[k].exchanges|
    requires Inventory(dbName, acts, excs, linked)[k].exchanges[j].input.Some?
    ensures KnownTarget(Inventory(dbName, acts, excs, linked)[k].exchanges[j].input.value,
                        Inventory(dbName, acts, excs, linked), dbName, linked)
  {
    var inv := Inventory(dbName, acts, excs, linked);
    var a := NodeSource(dbName, acts, acts, excs, linked, k);
    var xs := ExchangesOf(a.code, excs);
    var e := xs[j];
    var t := inv[k].exchanges[j].input.value;
    assert inv[k].exchanges[j] == EdgeOf(dbName, k, e, acts, linked);
    if e.kind == "production" {
      assert t == k;
    } else if e.kind == "input" {
      var m := FirstNamed(acts, e.flowName);
      if m.Some? {
        assert acts[m.value] in acts;
        assert t in inv;
      } else {
        assert t.code == GenericPrefix + e.flowName;
        assert t.code[..|GenericPrefix|] == GenericPrefix;
      }
    } else if e.flowName in linked {
      assert t in linked.Values;
    } else {
      assert t.code == BiospherePrefix + e.flowName;
      assert t.code[..|BiospherePrefix|] == BiospherePrefix;
    }
  }

  /** The activity whose node sits under key `k`. */
  lemma {:induction false} NodeSource(dbName: string, acts: seq<Activity>, part: seq<Activity>,
                                      excs: seq<Exchange>, linked: map<string, Key>, k: Key)
    returns (a: Activity)
    requires k in InventoryOf(dbName, acts, part, excs, linked)
    ensures a in part && k == Key(dbName, a.code)
    ensures InventoryOf(dbName, acts, part, excs, linked)[k] == NodeOf(dbName, a, acts, excs, linked)
  {
    var last := part[|part| - 1];
    if k == Key(dbName, last.code) {
      a := last;
    } else {
      a := NodeSource(dbName, acts, part[..|part| - 1], excs, linked, k);
    }
  }

  /** Every exchange of an activity appears as an edge of the node under
      that activity's key, whichever activity with that code the node
      came from. */
  lemma EdgeForExchange(dbName: string, acts: seq<Activity>, excs: seq<Exchange>,
                        linked: map<string, Key>, e: Exchange)
    returns (j: nat)
    requires e in excs && Key(dbName, e.activityCode) in Inventory(dbName, acts, excs, linked)
    ensures j < |Inventory(dbName, acts, excs, linked)[Key(dbName, e.activityCode)].exchanges|
    ensures Inventory(dbName, acts, excs, linked)[Key(dbName, e.activityCode)].exchanges[j]
         == EdgeOf(dbName, Key(dbName, e.activityCode), e, acts, linked)
  {
    var k := Key(dbName, e.activityCode);
    var a := NodeSource(dbName, acts, acts, excs, linked, k);
    var xs := ExchangesOf(a.code, excs);
    assert e in xs;
    j :| 0 <= j < |xs| && xs[j] == e;
  }
}
