/**
 The release collector of one product's contract files: its catalog, the documents
 of the catalog's operations, and every document these refer to.
 */
module ReleaseClosure {
  import opened Results
  import opened ContractDocuments
  import opened ContractPaths
  import opened Reachability

  type Raw = string

  /** A checkout: its regular files, and the library functions the collector calls. */
  datatype Repository = Repository(
    readable: map<string, Raw>,
    parse: (string, Raw) -> Option<Value>,
    remote: string -> bool,
    unquote: string -> Option<string>)

  datatype Operation = Operation(id: string, path: string)

  datatype Error = Unreadable | UnsafePath | OutsideVersion | InvalidDocument | BadReference | OperationMissing

  const CATALOG := "contracts/product/v2/catalog.json"

  /** The document a reference names: none for the same document, an error for a forbidden one. */
  function Target(repo: Repository, current: string, reference: string): (r: Result<Option<string>, Error>)
    requires VersionRoot(current).Some?
    ensures r.Ok? && r.value.Some? ==> SafePath(r.value.value) && VersionRoot(current).value <= r.value.value
  {
    var file := File(reference);
    if file == "" then Ok(None)
    else if repo.remote(file) || "/" <= file || "data:" <= file || '\\' in file || '?' in file ||
      BadEscape(file) then Err(BadReference)
    else
      var decoded := repo.unquote(file);
      if decoded.None? || '\0' in decoded.value then Err(BadReference)
      else
        var resolved := Resolve(current, decoded.value);
        if !SafePath(resolved) then Err(UnsafePath)
        else if !(VersionRoot(current).value <= resolved) then Err(OutsideVersion)
        else Ok(Some(resolved))
  }

  predicate Follows(repo: Repository, current: string, references: set<string>)
    requires VersionRoot(current).Some?
  {
    forall r :: r in references ==> Target(repo, current, r).Ok?
  }

  function Targets(repo: Repository, current: string, references: set<string>): set<string>
    requires VersionRoot(current).Some?
  {
    set r | r in references && Target(repo, current, r).Ok? && Target(repo, current, r).value.Some?
      :: Target(repo, current, r).value.value
  }

  predicate IsJson(path: string) { |path| >= 5 && path[|path| - 5..] == ".json" }

  /** The parsed document of an acceptable path; only YAML has to be an object or an array. */
  function Document(repo: Repository, path: string): Option<Value> {
    if !SafePath(path) || VersionRoot(path).None? || path !in repo.readable then None
    else
      var document := repo.parse(path, repo.readable[path]);
      if document.Some? && (IsJson(path) || document.value.Object? || document.value.Array?) then document else None
  }

  /** The reference graph of the checkout, by document contents alone. */
  function Accepted(repo: Repository, path: string): (r: Option<set<string>>) {
    var document := Document(repo, path);
    if document.None? || Refused(document.value) then None
    else
      var references := Texts(document.value, REF);
      if Follows(repo, path, references) then Some(Targets(repo, path, references)) else None
  }

  ghost function GraphOf(repo: Repository): Graph { (path: string) => Accepted(repo, path) }

  // ------------------------------------------------------------------ confinement

  /** A safe path below the same version root. */
  predicate SameRoot(p: string, q: string) {
    SafePath(q) && VersionRoot(q).Some? && VersionRoot(q) == VersionRoot(p)
  }

  lemma ReferenceStaysInRoot(repo: Repository, p: string, q: string)
    requires Edge(GraphOf(repo), {}, p, q)
    ensures SameRoot(p, q)
  {
    assert q in Accepted(repo, p).value;
    var r :| r in Texts(Document(repo, p).value, REF) && Target(repo, p, r) == Ok(Some(q));
    SameVersionRoot(p, q);
  }

  /** No chain of references leaves a version root or gains a dot segment. */
  lemma ChainStaysInRoot(repo: Repository, path: seq<string>, k: nat)
    requires IsPath(GraphOf(repo), {}, path) && 0 < k < |path|
    ensures SameRoot(path[0], path[k])
  {
    forall p, q | Edge(GraphOf(repo), {}, p, q) ensures SameRoot(p, q) {
      ReferenceStaysInRoot(repo, p, q);
    }
    ChainKeeps(GraphOf(repo), {}, path, k, (p, q) => SameRoot(p, q));
  }

  // ------------------------------------------------------------------- the worklist

  function Held(target: Option<string>): seq<string> { if target.Some? then [target.value] else [] }

  /** What following some references has queued. */
  ghost predicate Queued(repo: Repository, current: string, references: seq<string>, pending: seq<string>,
                         queue: seq<string>)
    requires VersionRoot(current).Some?
  {
    && Follows(repo, current, Elements(references))
    && Elements(queue) == Elements(pending) + Targets(repo, current, Elements(references))
  }

  lemma OneMoreReference(repo: Repository, current: string, references: seq<string>, pending: seq<string>,
                         queue: seq<string>, reference: string)
    requires VersionRoot(current).Some? && Queued(repo, current, references, pending, queue) &&
               Target(repo, current, reference).Ok?
    ensures Queued(repo, current, references + [reference], pending,
                   queue + Held(Target(repo, current, reference).value))
  {
    var held := Held(Target(repo, current, reference).value);
    assert Elements(references + [reference]) == Elements(references) + {reference};
    assert Elements(queue + held) == Elements(queue) + Elements(held);
    assert Targets(repo, current, Elements(references) + {reference}) ==
             Targets(repo, current, Elements(references)) + Elements(held);
  }

  /** Queues the targets of one document's references. */
  method QueueTargets(repo: Repository, current: string, references: seq<string>, pending: seq<string>)
    returns (r: Result<seq<string>, Error>)
    requires VersionRoot(current).Some?
    ensures r.Ok? <==> Follows(repo, current, Elements(references))
    ensures r.Ok? ==> Queued(repo, current, references, pending, r.value)
  {
    var queue := pending;
    for i := 0 to |references|
      invariant Queued(repo, current, references[..i], pending, queue)
    {
      var target := Target(repo, current, references[i]);
      if target.Err? {
        assert references[i] in Elements(references);
        return Err(target.error);
      }
      OneMoreReference(repo, current, references[..i], pending, queue, references[i]);
      assert references[..i + 1] == references[..i] + [references[i]];
      queue := queue + Held(target.value);
    }
    assert references[..|references|] == references;
    return Ok(queue);
  }

  /** Reads, parses and queues one document. */
  method Visit(repo: Repository, current: string, pending: seq<string>) returns (r: Result<seq<string>, Error>)
    ensures r.Ok? <==> Accepted(repo, current).Some?
    ensures r.Ok? ==> Elements(r.value) == Elements(pending) + Accepted(repo, current).value
  {
    if !SafePath(current) {
      return Err(UnsafePath);
    }
    if VersionRoot(current).None? {
      return Err(OutsideVersion);
    }
    if current !in repo.readable {
      return Err(Unreadable);
    }
    var document := Document(repo, current);
    if document.None? {
      return Err(InvalidDocument);
    }
    var references := LocalReferences(document.value);
    if references.Err? {
      return Err(BadReference);
    }
    r := QueueTargets(repo, current, references.value, pending);
  }

  ghost predicate Copies(repo: Repository, docs: set<string>, catalog: string, files: map<string, Raw>) {
    files.Keys == docs + {catalog} && forall p :: p in files ==> p in repo.readable && files[p] == repo.readable[p]
  }

  /** The catalog and exactly the reached documents, with their bytes. */
  ghost predicate IsCollection(repo: Repository, roots: set<string>, catalog: string, files: map<string, Raw>) {
    exists docs :: AreReached(GraphOf(repo), roots, {}, docs) && Copies(repo, docs, catalog, files)
  }

  /** Keeps the bytes already held for a path, or reads them. */
  method Hold(repo: Repository, ghost docs: set<string>, catalog: string, files: map<string, Raw>, path: string)
    returns (held: map<string, Raw>)
    requires Copies(repo, docs, catalog, files) && path in repo.readable
    ensures Copies(repo, docs + {path}, catalog, held)
  {
    held := if path in files then files else files[path := repo.readable[path]];
    assert held.Keys == files.Keys + {path};
  }

  /** The worklist of the collector. */
  datatype Worklist = Worklist(visited: set<string>, pending: seq<string>, files: map<string, Raw>)

  ghost predicate Collecting(repo: Repository, roots: set<string>, catalog: string, w: Worklist) {
    && Working(GraphOf(repo), roots, {}, w.visited, Elements(w.pending))
    && w.visited <= repo.readable.Keys && Copies(repo, w.visited, catalog, w.files)
  }

  /** Pops one path: visited before, or read and followed. */
  method PopOne(repo: Repository, ghost roots: set<string>, catalog: string, w: Worklist)
    returns (r: Result<Worklist, Error>)
    requires Collecting(repo, roots, catalog, w) && w.pending != []
    ensures r.Err? ==> !AllAccepted(GraphOf(repo), roots, {})
    ensures r.Ok? ==> Collecting(repo, roots, catalog, r.value)
    ensures r.Ok? ==>
              || |repo.readable.Keys - r.value.visited| < |repo.readable.Keys - w.visited|
              || (r.value.visited == w.visited && |r.value.pending| < |w.pending|)
  {
    var current, rest := w.pending[|w.pending| - 1], w.pending[..|w.pending| - 1];
    PopLast(w.pending);
    if current in w.visited {
      SkipKeepsWorking(GraphOf(repo), roots, {}, w.visited, Elements(rest), current);
      return Ok(w.(pending := rest));
    }
    var queue := Visit(repo, current, rest);
    if queue.Err? {
      RefusalIsReached(GraphOf(repo), roots, {}, w.visited, Elements(w.pending), current);
      return Err(queue.error);
    }
    VisitKeepsWorking(GraphOf(repo), roots, {}, w.visited, Elements(rest), current);
    FewerLeft(repo.readable.Keys, w.visited, current);
    assert Elements(queue.value) == Elements(rest) + GraphOf(repo)(current).value;
    var files := Hold(repo, w.visited, catalog, w.files, current);
    var next := Worklist(w.visited + {current}, queue.value, files);
    assert Working(GraphOf(repo), roots, {}, next.visited, Elements(next.pending));
    return Ok(next);
  }

  lemma StartsCollecting(repo: Repository, roots: set<string>, catalog: string, pending: seq<string>)
    requires catalog in repo.readable && Elements(pending) == roots
    ensures Collecting(repo, roots, catalog, Worklist({}, pending, map[catalog := repo.readable[catalog]]))
  {
    StartsWorking(GraphOf(repo), roots, {});
    var files := map[catalog := repo.readable[catalog]];
    assert files.Keys == {} + {catalog};
  }

  lemma EndsCollecting(repo: Repository, roots: set<string>, catalog: string, w: Worklist)
    requires Collecting(repo, roots, catalog, w) && w.pending == []
    ensures AllAccepted(GraphOf(repo), roots, {}) && IsCollection(repo, roots, catalog, w.files)
  {
    assert Elements(w.pending) == {};
    DoneIsReached(GraphOf(repo), roots, {}, w.visited);
  }

  /** The worklist loop; the path queued last is popped first. */
  method CollectReached(repo: Repository, ghost roots: set<string>, pending: seq<string>, catalog: string)
    returns (r: Result<map<string, Raw>, Error>)
    requires catalog in repo.readable && Elements(pending) == roots
    ensures r.Ok? <==> AllAccepted(GraphOf(repo), roots, {})
    ensures r.Ok? ==> IsCollection(repo, roots, catalog, r.value)
  {
    var w := Worklist({}, pending, map[catalog := repo.readable[catalog]]);
    StartsCollecting(repo, roots, catalog, pending);
    while w.pending != []
      invariant Collecting(repo, roots, catalog, w)
      decreases |repo.readable.Keys - w.visited|, |w.pending|
    {
      var next := PopOne(repo, roots, catalog, w);
      if next.Err? {
        return Err(next.error);
      }
      w := next.value;
    }
    EndsCollecting(repo, roots, catalog, w);
    return Ok(w.files);
  }

  // --------------------------------------------------------------- the operations

  ghost function Roots(operations: seq<Operation>): set<string> {
    if operations == [] then {} else Roots(operations[..|operations| - 1]) + {operations[|operations| - 1].path}
  }

  method QueueOperations(operations: seq<Operation>) returns (pending: seq<string>)
    ensures Elements(pending) == Roots(operations)
  {
    pending := [];
    for i := 0 to |operations|
      invariant Elements(pending) == Roots(operations[..i])
    {
      assert operations[..i + 1][..i] == operations[..i];
      pending := pending + [operations[i].path];
    }
    assert operations[..|operations|] == operations;
  }

  predicate NamedIn(repo: Repository, operation: Operation) {
    var document := Document(repo, operation.path);
    document.Some? && operation.id in Texts(document.value, "operationId")
  }

  /** Every operation is named somewhere in its own document. */
  method CheckOperations(repo: Repository, operations: seq<Operation>) returns (named: bool)
    ensures named <==> forall o :: o in operations ==> NamedIn(repo, o)
  {
    for i := 0 to |operations|
      invariant forall k :: 0 <= k < i ==> NamedIn(repo, operations[k])
    {
      assert operations[i] in operations;
      var document := Document(repo, operations[i].path);
      if document.None? {
        return false;
      }
      var found := HasOperation(document.value, operations[i].id);
      if !found {
        return false;
      }
    }
    return true;
  }

  /**
   The collected files of a validated catalog.  It succeeds exactly when the catalog
   is readable, no reached document is refused and every operation is named in its
   document; the result is then the catalog and exactly the reached documents.
   */
  method CollectProductContractFiles(repo: Repository, operations: seq<Operation>, catalog: string := CATALOG)
    returns (r: Result<map<string, Raw>, Error>)
    ensures r.Ok? <==>
              && catalog in repo.readable && AllAccepted(GraphOf(repo), Roots(operations), {})
              && forall o :: o in operations ==> NamedIn(repo, o)
    ensures r.Ok? ==> IsCollection(repo, Roots(operations), catalog, r.value)
  {
    if catalog !in repo.readable {
      return Err(Unreadable);
    }
    var pending := QueueOperations(operations);
    r := CollectReached(repo, Roots(operations), pending, catalog);
    if r.Err? {
      return;
    }
    var named := CheckOperations(repo, operations);
    if !named {
      return Err(OperationMissing);
    }
  }

  /** The collected documents lie in every closed set of documents that holds the operations' documents. */
  lemma CollectionIsLeast(repo: Repository, roots: set<string>, catalog: string, files: map<string, Raw>,
                          docs: iset<string>)
    requires IsCollection(repo, roots, catalog, files)
    requires forall p :: p in roots ==> p in docs
    requires Closed(GraphOf(repo), {}, docs)
    ensures forall p :: p in files && p != catalog ==> p in docs
  {
    ReachedIsLeast(GraphOf(repo), roots, {}, docs);
  }
}
