/** Biosphere linker: `link_biosphere_flows` resolves the flow names of
    emission and resource exchanges against the external biosphere3
    database, whose `search` is passed in. */
module BiosphereLinker {
  import opened Values
  import opened Lci

  /** The database every linked key points into. */
  const Biosphere3 := "biosphere3"

  /** A search hit; the linker uses only its code. */
  datatype Candidate = Candidate(code: string, name: string)

  /** What one `search(term)` call gives: the ranked hits, or an
      exception. */
  datatype SearchOutcome = SearchFailed | Found(hits: seq<Candidate>)

  /** The biosphere3 database: `Unavailable` when opening it raises. */
  datatype FlowDatabase = Unavailable | Available(search: string -> SearchOutcome)

  predicate IsBiosphereKind(kind: string) {
    kind == "emission" || kind == "resource"
  }

  /** The distinct flow names of emission and resource exchanges. */
  function BiosphereFlowNames(excs: seq<Exchange>): (r: set<string>)
    ensures forall e :: e in excs && IsBiosphereKind(e.kind) ==> e.flowName in r
    ensures forall n :: n in r ==> exists e :: e in excs && IsBiosphereKind(e.kind) && e.flowName == n
  {
    set e | e in excs && IsBiosphereKind(e.kind) :: e.flowName
  }

  /** The user's mapping names the search term when it has the flow. */
  function SearchTerm(name: string, mapping: map<string, string>): string {
    if name in mapping then mapping[name] else name
  }

  /** The code of the first hit for the flow's term; `None` when the
      search raises or finds nothing. */
  function Resolve(name: string, mapping: map<string, string>, search: string -> SearchOutcome)
    : Option<string>
  {
    match search(SearchTerm(name, mapping))
    case Found(hits) => if |hits| > 0 then Some(hits[0].code) else None
    case SearchFailed => None
  }

  /** The linked flows: a name is linked exactly when the search for its
      term finds something, and then to the first hit in biosphere3. */
  function LinkedFlows(names: set<string>, mapping: map<string, string>,
                       search: string -> SearchOutcome)
    : (r: map<string, Key>)
    ensures r.Keys <= names
  {
    map n | n in names && Resolve(n, mapping, search).Some? :: Key(Biosphere3, Resolve(n, mapping, search).value)
  }

  /** A name is linked exactly when the search for its term (the mapped
      name if the user mapped it) finds something, and then to the code of
      the first hit, in biosphere3. */
  lemma LinkedToFirstHit(names: set<string>, mapping: map<string, string>,
                         search: string -> SearchOutcome, n: string)
    requires n in names
    ensures var term := if n in mapping then mapping[n] else n;
            && (n in LinkedFlows(names, mapping, search) <==> search(term).Found? && |search(term).hits| > 0)
            && (n in LinkedFlows(names, mapping, search) ==>
                  LinkedFlows(names, mapping, search)[n] == Key(Biosphere3, search(term).hits[0].code))
  {
  }

  /** The names the search could not resolve. */
  function UnlinkedFlowNames(names: set<string>, mapping: map<string, string>,
                             search: string -> SearchOutcome)
    : (r: set<string>)
    ensures r <= names
  {
    set n | n in names && Resolve(n, mapping, search).None?
  }

  /** `s` lists the elements of `names`, each once. */
  ghost predicate Lists(s: seq<string>, names: set<string>) {
    (forall x :: x in s <==> x in names)
    && forall i, j :: 0 <= i < j < |s| ==> s[i] != s[j]
  }

  /** Every flow name is either linked or listed as unlinked, never both. */
  lemma LinkedOrUnlinked(names: set<string>, mapping: map<string, string>,
                         search: string -> SearchOutcome)
    ensures LinkedFlows(names, mapping, search).Keys + UnlinkedFlowNames(names, mapping, search) == names
    ensures LinkedFlows(names, mapping, search).Keys !! UnlinkedFlowNames(names, mapping, search)
  {
    var linked := LinkedFlows(names, mapping, search);
    var unlinked := UnlinkedFlowNames(names, mapping, search);
    forall n | n in names ensures n in linked || n in unlinked {
      if Resolve(n, mapping, search).None? {
        assert n in unlinked;
      }
    }
  }

  /** A mapped flow is looked up by its biosphere name alone: it resolves
      as that name would with no mapping at all. */
  lemma MappedNameSearchedAsMapped(name: string, mapping: map<string, string>,
                                   search: string -> SearchOutcome)
    requires name in mapping
    ensures Resolve(name, mapping, search) == Resolve(mapping[name], map[], search)
  {
  }

  /** A search that never finds anything leaves every name unlinked. */
  lemma NothingFoundNothingLinked(names: set<string>, mapping: map<string, string>,
                                  search: string -> SearchOutcome)
    requires forall t :: search(t).SearchFailed? || search(t).hits == []
    ensures LinkedFlows(names, mapping, search) == map[]
    ensures UnlinkedFlowNames(names, mapping, search) == names
  {
    LinkedOrUnlinked(names, mapping, search);
  }

  /** The loop `for flow_name in unique_flows`. A Python set has no order
      the program relies on, so each step picks any remaining name. */
  method LinkFlows(names: set<string>, mapping: map<string, string>,
                   search: string -> SearchOutcome)
    returns (linked: map<string, Key>, unlinked: seq<string>)
    ensures linked == LinkedFlows(names, mapping, search)
    ensures Lists(unlinked, UnlinkedFlowNames(names, mapping, search))
  {
    linked := map[];
    unlinked := [];
    var remaining := names;
    ghost var done: set<string> := {};
    NothingDone(mapping, search);
    while remaining != {}
      invariant remaining <= names && done == names - remaining
      invariant linked == LinkedFlows(done, mapping, search)
      invariant Lists(unlinked, UnlinkedFlowNames(done, mapping, search))
      decreases |remaining|
    {
      var name :| name in remaining;
      linked, unlinked := LinkFlow(name, mapping, search, linked, unlinked, done);
      remaining := remaining - {name};
      done := done + {name};
    }
  }

  /** One pass of the loop body: the flow is searched by its term and
      either linked to the first hit or appended to the unlinked names. */
  method LinkFlow(name: string, mapping: map<string, string>, search: string -> SearchOutcome,
                  linked: map<string, Key>, unlinked: seq<string>, ghost done: set<string>)
    returns (linked': map<string, Key>, unlinked': seq<string>)
    requires name !in done
    requires linked == LinkedFlows(done, mapping, search)
    requires Lists(unlinked, UnlinkedFlowNames(done, mapping, search))
    ensures linked' == LinkedFlows(done + {name}, mapping, search)
    ensures Lists(unlinked', UnlinkedFlowNames(done + {name}, mapping, search))
  {
    LinkStep(done, name, mapping, search);
    var term := if name in mapping then mapping[name] else name;
    var results := search(term);
    assert term == SearchTerm(name, mapping);
    if results.Found? && |results.hits| > 0 {
      linked', unlinked' := linked[name := Key(Biosphere3, results.hits[0].code)], unlinked;
    } else {
      ListsExtend(unlinked, UnlinkedFlowNames(done, mapping, search), name);
      linked', unlinked' := linked, unlinked + [name];
    }
  }

  /** Before the loop, nothing is linked and nothing is unlinked. */
  lemma NothingDone(mapping: map<string, string>, search: string -> SearchOutcome)
    ensures LinkedFlows({}, mapping, search) == map[]
    ensures Lists([], UnlinkedFlowNames({}, mapping, search))
  {
  }

  /** Resolving one more name adds it to exactly one of the two results. */
  lemma LinkStep(done: set<string>, name: string, mapping: map<string, string>,
                 search: string -> SearchOutcome)
    requires name !in done
    ensures Resolve(name, mapping, search).Some? ==>
              && LinkedFlows(done + {name}, mapping, search)
                 == LinkedFlows(done, mapping, search)[name := Key(Biosphere3, Resolve(name, mapping, search).value)]
              && UnlinkedFlowNames(done + {name}, mapping, search) == UnlinkedFlowNames(done, mapping, search)
    ensures Resolve(name, mapping, search).None? ==>
              && LinkedFlows(done + {name}, mapping, search) == LinkedFlows(done, mapping, search)
              && UnlinkedFlowNames(done + {name}, mapping, search)
                 == UnlinkedFlowNames(done, mapping, search) + {name}
  {
  }

  lemma ListsExtend(s: seq<string>, names: set<string>, x: string)
    requires Lists(s, names) && x !in names
    ensures Lists(s + [x], names + {x})
  {
  }

  /** What `link_biosphere_flows` adds to the warnings: one warning when
      the database cannot be opened, otherwise one aggregate warning
      listing the unlinked names, or nothing when every name is linked. */
  ghost predicate LinkWarnings(before: seq<Message>, after: seq<Message>, db: FlowDatabase,
                         names: set<string>, mapping: map<string, string>)
  {
    match db
    case Unavailable => after == before + [BiosphereUnavailable]
    case Available(search) =>
      var unlinked := UnlinkedFlowNames(names, mapping, search);
      if unlinked == {} then after == before
      else
        && |after| == |before| + 1 && after[..|before|] == before
        && after[|before|].UnlinkedFlows? && Lists(after[|before|].flowNames, unlinked)
  }

  /** The flows linked in a run: none when the database is unavailable. */
  function Linked(db: FlowDatabase, names: set<string>, mapping: map<string, string>)
    : (r: map<string, Key>)
    ensures db.Unavailable? ==> r == map[]
    ensures r.Keys <= names
  {
    if db.Unavailable? then map[] else LinkedFlows(names, mapping, db.search)
  }

  /** Linking adds at most one warning and never removes any. */
  lemma AtMostOneLinkWarning(before: seq<Message>, after: seq<Message>, db: FlowDatabase,
                             names: set<string>, mapping: map<string, string>)
    requires LinkWarnings(before, after, db, names, mapping)
    ensures |before| <= |after| <= |before| + 1 && after[..|before|] == before
    ensures db.Available? && after != before ==>
              forall n :: n in after[|before|].flowNames <==> n in names && n !in Linked(db, names, mapping)
  {
    if db.Available? {
      LinkedOrUnlinked(names, mapping, db.search);
    }
  }
}
