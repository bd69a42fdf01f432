/**
 The v2 bundle builder: one map of collected artifacts is shared by the reference
 walks of all operations of all owners.  A document that is already in the map is
 not walked again, and the catalogs are put there without being walked at all.
 */
module SharedClosure {
  import opened Results
  import opened Paths
  import opened ContractDocuments
  import opened ContractPaths
  import opened Reachability

  type Raw = string

  /** The pinned commits: regular files by bundle path, and the library functions that are called. */
  datatype Sources = Sources(readable: map<string, Raw>, parse: (string, Raw) -> Option<Value>,
                             unquote: string -> string)

  datatype Error = Unreadable | InvalidDocument | RemoteReference | OutsideContract | NotNormalized | LeavesRoot

  /** The document a reference names: none for the same document, an error for a forbidden one. */
  function Target(src: Sources, source: string, reference: string): (r: Result<Option<string>, Error>)
    ensures r.Ok? && r.value.Some? ==>
              NormalizedRepoPath(r.value.value) && ContractRoot(source).Some? &&
                ContractRoot(source).value <= r.value.value
  {
    var file := File(reference);
    if Contains(file, "://") || "/" <= file || "data:" <= file || '\\' in file || '?' in file ||
      BadEscape(file) then Err(RemoteReference)
    else if file == "" then Ok(None)
    else if ContractRoot(source).None? then Err(OutsideContract)
    else
      var resolved := Resolve(source, src.unquote(file));
      if !NormalizedRepoPath(resolved) then Err(NotNormalized)
      else if !(ContractRoot(source).value <= resolved) then Err(LeavesRoot)
      else Ok(Some(resolved))
  }

  function Held(target: Option<string>): set<string> { if target.Some? then {target.value} else {} }

  function Named(src: Sources, source: string, reference: string): set<string> {
    var target := Target(src, source, reference);
    if target.Ok? then Held(target.value) else {}
  }

  predicate Follows(src: Sources, source: string, references: set<string>) {
    forall r :: r in references ==> Target(src, source, r).Ok?
  }

  function Targets(src: Sources, source: string, references: set<string>): set<string> {
    set r, q | r in references && q in Named(src, source, r) :: q
  }

  /** The parsed document at a path. */
  function Opened(src: Sources, path: string): Option<Value> {
    if path in src.readable then src.parse(path, src.readable[path]) else None
  }

  /** The reference graph, by document contents alone. */
  function Accepted(src: Sources, path: string): Option<set<string>> {
    var document := Opened(src, path);
    if document.None? || !Follows(src, path, Texts(document.value, REF)) then None
    else Some(Targets(src, path, Texts(document.value, REF)))
  }

  ghost function GraphOf(src: Sources): Graph { (path: string) => Accepted(src, path) }

  // ------------------------------------------------------------------ confinement

  /** A path without dot segments below the same contract version root, hence of the same repository. */
  predicate SameRoot(p: string, q: string) {
    NoDots(q) && ContractRoot(q).Some? && ContractRoot(q) == ContractRoot(p) && Split(q)[0] == Split(p)[0]
  }

  lemma ReferenceStaysInRoot(src: Sources, stop: set<string>, p: string, q: string)
    requires Edge(GraphOf(src), stop, p, q)
    ensures SameRoot(p, q)
  {
    assert q in Accepted(src, p).value;
    var r :| r in Texts(Opened(src, p).value, REF) && q in Named(src, p, r);
    NormalizedHasNoDots(q);
    SameContractRoot(p, q);
    SharedPieces(Split(p)[..4], q);
    assert Split(q)[0] == Split(q)[..4][0] == Split(p)[..4][0];
  }

  /** No chain of references leaves its contract version root or gains a dot segment. */
  lemma ChainStaysInRoot(src: Sources, stop: set<string>, path: seq<string>, k: nat)
    requires IsPath(GraphOf(src), stop, path) && 0 < k < |path|
    ensures SameRoot(path[0], path[k])
  {
    forall p, q | Edge(GraphOf(src), stop, p, q) ensures SameRoot(p, q) {
      ReferenceStaysInRoot(src, stop, p, q);
    }
    ChainKeeps(GraphOf(src), stop, path, k, (p, q) => SameRoot(p, q));
  }

  /** The operation documents of the repository that holds this path. */
  ghost function OwnRoots(roots: set<string>, p: string): set<string> {
    set r | r in roots && Split(r)[0] == Split(p)[0]
  }

  /** What is reached inside one repository is reached from that repository's own operations. */
  lemma OwnersDoNotMix(src: Sources, roots: set<string>, stop: set<string>, p: string)
    ensures Reached(GraphOf(src), roots, stop, p) <==> Reached(GraphOf(src), OwnRoots(roots, p), stop, p)
  {
    var own := OwnRoots(roots, p);
    if Reached(GraphOf(src), roots, stop, p) {
      var path :| Connects(GraphOf(src), roots, stop, path, p);
      if |path| > 1 {
        ChainStaysInRoot(src, stop, path, |path| - 1);
      }
      assert Connects(GraphOf(src), own, stop, path, p);
    }
    if Reached(GraphOf(src), own, stop, p) {
      var path :| Connects(GraphOf(src), own, stop, path, p);
      assert Connects(GraphOf(src), roots, stop, path, p);
    }
  }

  // ------------------------------------------------------- the invariant of the map

  /**
   `keys` are the collected paths and `open` those still to be walked.  Every other
   document that is not a catalog has all its targets collected, and nothing is
   collected that the operations do not reach.
   */
  ghost predicate Discovered(g: Graph, roots: set<string>, stop: set<string>, keys: set<string>, open: set<string>) {
    && stop <= keys && roots <= keys && open <= keys && open !! stop
    && (forall p :: p in keys && p !in stop && p !in open ==> g(p).Some? && g(p).value <= keys)
    && (forall p :: p in keys && p !in stop ==> Reached(g, roots, stop, p))
  }

  /** Walking one open document collects its targets and opens the new ones. */
  lemma WalkKeepsDiscovered(g: Graph, roots: set<string>, stop: set<string>, keys: set<string>, open: set<string>,
                            current: string)
    requires Discovered(g, roots, stop, keys, open) && current in open && g(current).Some?
    ensures Discovered(g, roots, stop, keys + g(current).value, open - {current} + (g(current).value - keys))
  {
    forall q | q in g(current).value ensures Reached(g, roots, stop, q) {
      assert Edge(g, stop, current, q);
      EdgeIsReached(g, roots, stop, current, q);
    }
  }

  /** A document that cannot be walked, or a new target that cannot be opened, is a reached refusal. */
  lemma FailureIsReached(g: Graph, roots: set<string>, stop: set<string>, keys: set<string>, open: set<string>,
                         current: string)
    requires Discovered(g, roots, stop, keys, open) && current in open
    requires g(current).None? || exists q :: q in g(current).value && q !in keys && g(q).None?
    ensures !AllAccepted(g, roots, stop)
  {
    if g(current).Some? {
      var q :| q in g(current).value && q !in keys && g(q).None?;
      assert Edge(g, stop, current, q);
      EdgeIsReached(g, roots, stop, current, q);
    }
  }

  /** With nothing open, the map holds exactly the catalogs and the reached documents. */
  lemma MapIsExact(g: Graph, roots: set<string>, stop: set<string>, keys: set<string>)
    requires Discovered(g, roots, stop, keys, {})
    ensures AllAccepted(g, roots, stop)
    ensures forall p :: p in keys <==> p in stop || Reached(g, roots, stop, p)
  {
    var docs := iset p | p in keys;
    assert Closed(g, stop, docs);
    ReachedIsLeast(g, roots, stop, docs);
  }

  lemma MoreRootsReachMore(g: Graph, roots: set<string>, more: set<string>, stop: set<string>, p: string)
    requires Reached(g, roots, stop, p) && roots <= more
    ensures Reached(g, more, stop, p)
  {
    var path :| Connects(g, roots, stop, path, p);
    assert Connects(g, more, stop, path, p);
  }

  /** Starting on another operation: its document becomes open unless it is already collected. */
  lemma RootKeepsDiscovered(g: Graph, roots: set<string>, stop: set<string>, keys: set<string>, root: string)
    requires Discovered(g, roots, stop, keys, {})
    ensures Discovered(g, roots + {root}, stop, keys + {root}, {root} - keys)
  {
    forall p | p in keys && p !in stop ensures Reached(g, roots + {root}, stop, p) {
      MoreRootsReachMore(g, roots, roots + {root}, stop, p);
    }
    RootIsReached(g, roots + {root}, stop, root);
  }

  // -------------------------------------------------------------------- the builder

  /** Entries are only added, each with the bytes of its path. */
  ghost predicate Extends(src: Sources, before: map<string, Raw>, after: map<string, Raw>) {
    && before.Keys <= after.Keys
    && (forall p :: p in before ==> after[p] == before[p])
    && (forall p :: p in after && p !in before ==> p in src.readable && after[p] == src.readable[p])
  }

  /** New targets can all be read and parsed. */
  ghost predicate CanOpen(src: Sources, held: set<string>, targets: set<string>) {
    forall q :: q in targets && q !in held ==> Opened(src, q).Some?
  }

  /** The map and the queue after collecting `targets`. */
  ghost predicate Grown(src: Sources, targets: set<string>, before: map<string, Raw>, queue: seq<string>,
                        after: map<string, Raw>, pending: seq<string>)
  {
    && Extends(src, before, after) && CanOpen(src, before.Keys, targets)
    && after.Keys == before.Keys + targets
    && Elements(pending) == Elements(queue) + (targets - before.Keys)
    && (after.Keys == before.Keys ==> pending == queue)
  }

  /** What a walk has done after following the references in `found`. */
  ghost predicate Walked(src: Sources, source: string, found: set<string>,
                         before: map<string, Raw>, queue: seq<string>, after: map<string, Raw>, pending: seq<string>) {
    Follows(src, source, found) && Grown(src, Targets(src, source, found), before, queue, after, pending)
  }

  lemma ExtendsFurther(src: Sources, before: map<string, Raw>, middle: map<string, Raw>, after: map<string, Raw>)
    requires Extends(src, before, middle) && Extends(src, middle, after)
    ensures Extends(src, before, after)
  {
  }

  lemma StartsWalked(src: Sources, source: string, before: map<string, Raw>, queue: seq<string>)
    ensures Walked(src, source, {}, before, queue, before, queue)
  {
    assert Targets(src, source, {}) == {};
  }

  lemma MoreTargets(src: Sources, source: string, found: set<string>, reference: string)
    ensures Targets(src, source, found + {reference}) == Targets(src, source, found) + Named(src, source, reference)
  {
  }

  lemma GrowsFurther(src: Sources, seen: set<string>, next: set<string>,
                     before: map<string, Raw>, queue: seq<string>, middle: map<string, Raw>, pending: seq<string>,
                     after: map<string, Raw>, longer: seq<string>)
    requires Grown(src, seen, before, queue, middle, pending) && Grown(src, next, middle, pending, after, longer)
    ensures Grown(src, seen + next, before, queue, after, longer)
  {
    assert Elements(longer) == Elements(queue) + ((seen + next) - before.Keys);
  }

  lemma WalksFurther(src: Sources, source: string, found: set<string>, reference: string,
                     before: map<string, Raw>, queue: seq<string>, middle: map<string, Raw>, pending: seq<string>,
                     after: map<string, Raw>, longer: seq<string>)
    requires Walked(src, source, found, before, queue, middle, pending) && Target(src, source, reference).Ok?
    requires Grown(src, Named(src, source, reference), middle, pending, after, longer)
    ensures Walked(src, source, found + {reference}, before, queue, after, longer)
  {
    MoreTargets(src, source, found, reference);
    GrowsFurther(src, Targets(src, source, found), Named(src, source, reference), before, queue, middle, pending, after,
                 longer);
  }

  lemma CannotFollow(src: Sources, source: string, references: set<string>, found: set<string>, reference: string,
                     before: map<string, Raw>, queue: seq<string>, middle: map<string, Raw>, pending: seq<string>)
    requires Walked(src, source, found, before, queue, middle, pending) && reference in references
    requires Target(src, source, reference).Err? || !CanOpen(src, middle.Keys, Named(src, source, reference))
    ensures !Follows(src, source, references) || !CanOpen(src, before.Keys, Targets(src, source, references))
  {
    if Target(src, source, reference).Ok? {
      var q :| q in Named(src, source, reference) && q !in middle && Opened(src, q).None?;
      assert q in Targets(src, source, references) && q !in before;
    }
  }

  lemma GraphWhenFollowed(src: Sources, path: string)
    requires Opened(src, path).Some? && Follows(src, path, Texts(Opened(src, path).value, REF))
    ensures GraphOf(src)(path) == Some(Targets(src, path, Texts(Opened(src, path).value, REF)))
  {
  }

  lemma GraphWhenRefused(src: Sources, path: string)
    requires Opened(src, path).Some? ==> !Follows(src, path, Texts(Opened(src, path).value, REF))
    ensures GraphOf(src)(path).None?
  {
  }

  /** A walk that fails meets a refused document: the one it walks, or a new target. */
  lemma WalkFailureIsRefusal(src: Sources, keys: set<string>, source: string)
    requires Opened(src, source).Some?
    requires var references := Texts(Opened(src, source).value, REF);
             !Follows(src, source, references) || !CanOpen(src, keys, Targets(src, source, references))
    ensures var g := GraphOf(src);
            g(source).None? || exists q :: q in g(source).value && q !in keys && g(q).None?
  {
    var targets := Targets(src, source, Texts(Opened(src, source).value, REF));
    if Follows(src, source, Texts(Opened(src, source).value, REF)) {
      GraphWhenFollowed(src, source);
      var q :| q in targets && q !in keys && Opened(src, q).None?;
      GraphWhenRefused(src, q);
    } else {
      GraphWhenRefused(src, source);
    }
  }

  /** A queue of opened documents; those not yet visited are the open ones. */
  ghost predicate Queued(src: Sources, roots: set<string>, stop: set<string>, keys: set<string>, visited: set<string>,
                         pending: seq<string>)
  {
    && Discovered(GraphOf(src), roots, stop, keys, Elements(pending) - visited)
    && visited <= keys
    && (forall p :: p in pending ==> p in keys && Opened(src, p).Some?)
  }

  lemma StartsQueued(src: Sources, roots: set<string>, stop: set<string>, keys: set<string>, current: string)
    requires Opened(src, current).Some? && Discovered(GraphOf(src), roots, stop, keys, {current})
    ensures Queued(src, roots, stop, keys, {}, [current])
  {
    assert Elements([current]) - {} == {current};
  }

  lemma EndsQueued(src: Sources, roots: set<string>, stop: set<string>, keys: set<string>, visited: set<string>)
    requires Queued(src, roots, stop, keys, visited, [])
    ensures Discovered(GraphOf(src), roots, stop, keys, {})
  {
    var none: seq<string> := [];
    assert Elements(none) - visited == {};
  }

  lemma SkipKeepsQueued(src: Sources, roots: set<string>, stop: set<string>, keys: set<string>, visited: set<string>,
                        pending: seq<string>)
    requires pending != [] && Queued(src, roots, stop, keys, visited, pending) && pending[|pending| - 1] in visited
    ensures Queued(src, roots, stop, keys, visited, pending[..|pending| - 1])
  {
    PopLast(pending);
    assert Elements(pending[..|pending| - 1]) - visited == Elements(pending) - visited;
  }

  lemma WalkKeepsQueued(src: Sources, roots: set<string>, stop: set<string>, visited: set<string>, pending: seq<string>,
                        before: map<string, Raw>, after: map<string, Raw>, queue: seq<string>)
    requires pending != [] && Queued(src, roots, stop, before.Keys, visited, pending)
    requires var source, rest := pending[|pending| - 1], pending[..|pending| - 1];
             source !in visited &&
               Walked(src, source, Texts(Opened(src, source).value, REF), before, rest, after, queue)
    ensures Queued(src, roots, stop, after.Keys, visited + {pending[|pending| - 1]}, queue)
  {
    var source, rest := pending[|pending| - 1], pending[..|pending| - 1];
    var g, targets := GraphOf(src), Targets(src, source, Texts(Opened(src, source).value, REF));
    PopLast(pending);
    var open := Elements(pending) - visited;
    assert source in open && g(source) == Some(targets);
    WalkKeepsDiscovered(g, roots, stop, before.Keys, open, source);
    assert Elements(queue) - (visited + {source}) == open - {source} + (targets - before.Keys);
    forall p | p in queue ensures p in after && Opened(src, p).Some? {
      assert p in Elements(queue);
      assert p in Elements(rest) ==> p in pending;
    }
  }

  class Artifacts {
    var files: map<string, Raw>

    constructor (catalogs: map<string, Raw>)
      ensures files == catalogs
    {
      files := catalogs;
    }

    /** The target of one reference: a new one is read, collected and queued. */
    method Collect(src: Sources, target: Option<string>, pending: seq<string>) returns (r: Result<seq<string>, Error>)
      modifies this
      ensures Extends(src, old(files), files)
      ensures r.Ok? <==> CanOpen(src, old(files.Keys), Held(target))
      ensures r.Ok? ==> Grown(src, Held(target), old(files), pending, files, r.value)
    {
      if target.None? || target.value in files {
        return Ok(pending);
      }
      var resolved := target.value;
      if resolved !in src.readable {
        return Err(Unreadable);
      }
      files := files[resolved := src.readable[resolved]];
      if src.parse(resolved, src.readable[resolved]).None? {
        return Err(InvalidDocument);
      }
      r := Ok(pending + [resolved]);
      assert Elements(r.value) == Elements(pending) + {resolved};
    }

    method Follow(src: Sources, source: string, reference: string, pending: seq<string>)
      returns (r: Result<seq<string>, Error>)
      modifies this
      ensures Extends(src, old(files), files)
      ensures r.Ok? <==>
                Target(src, source, reference).Ok? && CanOpen(src, old(files.Keys), Named(src, source, reference))
      ensures r.Ok? ==> Grown(src, Named(src, source, reference), old(files), pending, files, r.value)
    {
      var target := Target(src, source, reference);
      if target.Err? {
        return Err(target.error);
      }
      r := Collect(src, target.value, pending);
    }

    /** Walks one document: all its local targets end up in the map, and the new ones in the queue. */
    method Walk(src: Sources, source: string, document: Value, queue: seq<string>)
      returns (r: Result<seq<string>, Error>)
      modifies this
      ensures Extends(src, old(files), files)
      ensures var references := Texts(document, REF);
              r.Ok? <==>
                Follows(src, source, references) && CanOpen(src, old(files.Keys), Targets(src, source, references))
      ensures r.Ok? ==> Walked(src, source, Texts(document, REF), old(files), queue, files, r.value)
    {
      ghost var found: set<string> := {};
      var pending := queue;
      var stack := [document];
      assert stack[1..] == [];
      StartsWalked(src, source, files, queue);
      while stack != []
        invariant Walked(src, source, found, old(files), queue, files, pending)
        invariant found + TextsAll(stack, REF) == Texts(document, REF)
        decreases SizeAll(stack)
      {
        Unstack(stack, REF);
        var value := stack[|stack| - 1];
        var reference := Member(value, REF);
        if reference.Text? {
          ghost var middle, waiting := files, pending;
          var followed := Follow(src, source, reference.text, pending);
          if followed.Err? {
            CannotFollow(src, source, Texts(document, REF), found, reference.text, old(files), queue, middle, waiting);
            return Err(followed.error);
          }
          pending := followed.value;
          WalksFurther(src, source, found, reference.text, old(files), queue, middle, waiting, files, pending);
          found := found + {reference.text};
        }
        stack := stack[..|stack| - 1] + Children(value);
      }
      return Ok(pending);
    }
  
    /** Takes one path from the queue and walks its document, as parsed when it was collected, unless that was done. */
    method TakeNext(src: Sources, ghost roots: set<string>, ghost stop: set<string>, visited: set<string>,
                    pending: seq<string>)
      returns (r: Result<(set<string>, seq<string>), Error>)
      requires pending != [] && Queued(src, roots, stop, files.Keys, visited, pending)
      modifies this
      ensures Extends(src, old(files), files)
      ensures r.Err? ==> !AllAccepted(GraphOf(src), roots, stop)
      ensures r.Ok? ==> Queued(src, roots, stop, files.Keys, r.value.0, r.value.1)
      ensures r.Ok? ==>
                || |src.readable.Keys - files.Keys| < |src.readable.Keys - old(files.Keys)|
                || (files.Keys == old(files.Keys) && |r.value.1| < |pending|)
    {
      var source, rest := pending[|pending| - 1], pending[..|pending| - 1];
      assert source in pending;
      if source in visited {
        SkipKeepsQueued(src, roots, stop, files.Keys, visited, pending);
        return Ok((visited, rest));
      }
      var queue := Walk(src, source, Opened(src, source).value, rest);
      if queue.Err? {
        WalkFailureIsRefusal(src, old(files.Keys), source);
        FailureIsReached(GraphOf(src), roots, stop, old(files.Keys), Elements(pending) - visited, source);
        return Err(queue.error);
      }
      WalkKeepsQueued(src, roots, stop, visited, pending, old(files), files, queue.value);
      if files.Keys != old(files.Keys) {
        FewerUnread(src.readable.Keys, old(files.Keys), files.Keys);
      }
      return Ok((visited + {source}, queue.value));
    }
  
    /** The reference walk from one newly collected document. */
    method AddReferenceClosure(src: Sources, current: string, ghost roots: set<string>, ghost stop: set<string>)
      returns (r: Result<(), Error>)
      requires Opened(src, current).Some? && Discovered(GraphOf(src), roots, stop, files.Keys, {current})
      modifies this
      ensures Extends(src, old(files), files)
      ensures r.Err? ==> !AllAccepted(GraphOf(src), roots, stop)
      ensures r.Ok? ==> Discovered(GraphOf(src), roots, stop, files.Keys, {})
    {
      var visited: set<string>, pending := {}, [current];
      StartsQueued(src, roots, stop, files.Keys, current);
      while pending != []
        invariant Extends(src, old(files), files)
        invariant Queued(src, roots, stop, files.Keys, visited, pending)
        decreases |src.readable.Keys - files.Keys|, |pending|
      {
        ghost var before := files;
        var next := TakeNext(src, roots, stop, visited, pending);
        ExtendsFurther(src, old(files), before, files);
        if next.Err? {
          return Err(next.error);
        }
        visited, pending := next.value.0, next.value.1;
      }
      EndsQueued(src, roots, stop, files.Keys, visited);
      return Ok(());
    }

    /**
     One operation's document.  Afterwards every collected document except the
     catalogs has all its targets collected, whatever was in the map before.
     */
    method AddOperation(src: Sources, path: string, ghost roots: set<string>, ghost stop: set<string>)
      returns (r: Result<(), Error>)
      requires Discovered(GraphOf(src), roots, stop, files.Keys, {})
      modifies this
      ensures Extends(src, old(files), files)
      ensures r.Err? ==> !AllAccepted(GraphOf(src), roots + {path}, stop)
      ensures r.Ok? ==> Discovered(GraphOf(src), roots + {path}, stop, files.Keys, {})
    {
      RootKeepsDiscovered(GraphOf(src), roots, stop, files.Keys, path);
      if path in files {
        assert files.Keys + {path} == files.Keys && {path} - files.Keys == {};
        return Ok(());
      }
      assert {path} - files.Keys == {path};
      if Opened(src, path).None? {
        FailureIsReached(GraphOf(src), roots + {path}, stop, files.Keys + {path}, {path}, path);
        return Err(if path in src.readable then InvalidDocument else Unreadable);
      }
      files := files[path := src.readable[path]];
      assert files.Keys == old(files.Keys) + {path};
      r := AddReferenceClosure(src, path, roots + {path}, stop);
    }

    /** The artifact loop over the operations of all owners, in order. */
    method AddOperations(src: Sources, paths: seq<string>) returns (r: Result<(), Error>)
      modifies this
      ensures Extends(src, old(files), files)
      ensures r.Ok? <==> AllAccepted(GraphOf(src), Elements(paths), old(files.Keys))
      ensures r.Ok? ==> forall p :: p in files <==>
                p in old(files) || Reached(GraphOf(src), Elements(paths), old(files.Keys), p)
    {
      ghost var stop := files.Keys;
      for i := 0 to |paths|
        invariant Extends(src, old(files), files)
        invariant Discovered(GraphOf(src), Elements(paths[..i]), stop, files.Keys, {})
      {
        assert Elements(paths[..i + 1]) == Elements(paths[..i]) + {paths[i]};
        r := AddOperation(src, paths[i], Elements(paths[..i]), stop);
        if r.Err? {
          FewerRootsFail(GraphOf(src), Elements(paths[..i + 1]), Elements(paths), stop);
          return;
        }
      }
      assert paths[..|paths|] == paths;
      MapIsExact(GraphOf(src), Elements(paths), stop, files.Keys);
      return Ok(());
    }
  }

  lemma FewerUnread(readable: set<string>, before: set<string>, after: set<string>)
    requires before < after && after - before <= readable
    ensures |readable - after| < |readable - before|
  {
    var p :| p in after && p !in before;
    assert p in after - before;
    SmallerSet(readable - after, readable - before - {p});
  }

  lemma {:induction false} SmallerSet(a: set<string>, b: set<string>)
    requires a <= b
    ensures |a| <= |b|
  {
    if a != {} {
      var x :| x in a;
      SmallerSet(a - {x}, b - {x});
    }
  }

  lemma FewerRootsFail(g: Graph, roots: set<string>, more: set<string>, stop: set<string>)
    requires roots <= more && !AllAccepted(g, roots, stop)
    ensures !AllAccepted(g, more, stop)
  {
    var p :| Reached(g, roots, stop, p) && p !in stop && g(p).None?;
    MoreRootsReachMore(g, roots, more, stop, p);
  }

  /** Where no reached document refers to a catalog, the bundle is the catalogs and everything reachable. */
  lemma CatalogsUnreferenced(src: Sources, roots: set<string>, catalogs: set<string>, p: string)
    requires roots !! catalogs
    requires forall d, q :: Reached(GraphOf(src), roots, {}, d) && Edge(GraphOf(src), {}, d, q) ==> q !in catalogs
    ensures Reached(GraphOf(src), roots, catalogs, p) <==> Reached(GraphOf(src), roots, {}, p)
  {
    StopsDoNotMatter(GraphOf(src), roots, catalogs, p);
  }
}
