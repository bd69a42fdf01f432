/** Documents that refer to documents: what is reachable, independently of any visiting order. */
module Reachability {
  import opened Results

  /** The local targets of a document, or `None` when the document is refused. */
  type Graph = string -> Option<set<string>>

  /** `stop` holds the documents that are collected without following their references. */
  ghost predicate Edge(g: Graph, stop: set<string>, p: string, q: string) {
    p !in stop && g(p).Some? && q in g(p).value
  }

  ghost predicate IsPath(g: Graph, stop: set<string>, path: seq<string>) {
    path != [] && forall i :: 0 <= i < |path| - 1 ==> Edge(g, stop, path[i], path[i + 1])
  }

  ghost predicate Connects(g: Graph, roots: set<string>, stop: set<string>, path: seq<string>, p: string) {
    IsPath(g, stop, path) && path[0] in roots && path[|path| - 1] == p
  }

  ghost predicate Reached(g: Graph, roots: set<string>, stop: set<string>, p: string) {
    exists path :: Connects(g, roots, stop, path, p)
  }

  ghost predicate Closed(g: Graph, stop: set<string>, docs: iset<string>) {
    forall p, q :: p in docs && Edge(g, stop, p, q) ==> q in docs
  }

  lemma RootIsReached(g: Graph, roots: set<string>, stop: set<string>, p: string)
    requires p in roots
    ensures Reached(g, roots, stop, p)
  {
    assert Connects(g, roots, stop, [p], p);
  }

  lemma EdgeIsReached(g: Graph, roots: set<string>, stop: set<string>, p: string, q: string)
    requires Reached(g, roots, stop, p) && Edge(g, stop, p, q)
    ensures Reached(g, roots, stop, q)
  {
    var path :| Connects(g, roots, stop, path, p);
    var longer := path + [q];
    assert forall i :: 0 <= i < |longer| - 1 ==> Edge(g, stop, longer[i], longer[i + 1]);
    assert Connects(g, roots, stop, longer, q);
  }

  lemma {:induction false} PathStaysInside(g: Graph, stop: set<string>, path: seq<string>, docs: iset<string>, k: nat)
    requires IsPath(g, stop, path) && Closed(g, stop, docs) && path[0] in docs && k < |path|
    ensures path[k] in docs
  {
    if k > 0 {
      PathStaysInside(g, stop, path, docs, k - 1);
      assert Edge(g, stop, path[k - 1], path[k]);
    }
  }

  /** What every single reference keeps, a chain of references keeps. */
  lemma {:induction false} ChainKeeps(g: Graph, stop: set<string>, path: seq<string>, k: nat,
                                      kept: (string, string) -> bool)
    requires IsPath(g, stop, path) && 0 < k < |path|
    requires forall p, q :: Edge(g, stop, p, q) ==> kept(p, q)
    requires forall p, q, r :: kept(p, q) && kept(q, r) ==> kept(p, r)
    ensures kept(path[0], path[k])
  {
    assert Edge(g, stop, path[k - 1], path[k]);
    if k > 1 {
      ChainKeeps(g, stop, path, k - 1, kept);
    }
  }

  /** The reached documents are the least closed set that holds the roots. */
  lemma ReachedIsLeast(g: Graph, roots: set<string>, stop: set<string>, docs: iset<string>)
    requires forall r :: r in roots ==> r in docs
    requires Closed(g, stop, docs)
    ensures forall p :: Reached(g, roots, stop, p) ==> p in docs
  {
    forall p | Reached(g, roots, stop, p) ensures p in docs {
      var path :| Connects(g, roots, stop, path, p);
      PathStaysInside(g, stop, path, docs, |path| - 1);
    }
  }

  lemma StopsReachLess(g: Graph, roots: set<string>, stop: set<string>, p: string)
    requires Reached(g, roots, stop, p)
    ensures Reached(g, roots, {}, p)
  {
    var path :| Connects(g, roots, stop, path, p);
    assert forall i :: 0 <= i < |path| - 1 && Edge(g, stop, path[i], path[i + 1]) ==> Edge(g, {}, path[i], path[i + 1]);
    assert Connects(g, roots, {}, path, p);
  }

  /** With no reached document referring to a stop document, stopping makes no difference. */
  lemma StopsDoNotMatter(g: Graph, roots: set<string>, stop: set<string>, p: string)
    requires roots !! stop
    requires forall d, q :: Reached(g, roots, {}, d) && Edge(g, {}, d, q) ==> q !in stop
    ensures Reached(g, roots, stop, p) <==> Reached(g, roots, {}, p)
  {
    var docs := iset d | Reached(g, roots, stop, d) && d !in stop;
    forall d, q | d in docs && Edge(g, {}, d, q) ensures q in docs {
      StopsReachLess(g, roots, stop, d);
      assert Edge(g, stop, d, q);
      EdgeIsReached(g, roots, stop, d, q);
    }
    forall r | r in roots ensures r in docs {
      RootIsReached(g, roots, stop, r);
    }
    ReachedIsLeast(g, roots, {}, docs);
    if Reached(g, roots, stop, p) {
      StopsReachLess(g, roots, stop, p);
    }
  }

  // -------------------------------------------------------------------- worklists

  function Elements<T(==)>(s: seq<T>): set<T> { set x | x in s }

  /** A worklist between two documents: what is visited, and what is still to be visited. */
  ghost predicate Working(g: Graph, roots: set<string>, stop: set<string>, visited: set<string>, pending: set<string>) {
    && roots <= visited + pending
    && (forall p :: p in visited && p !in stop ==> g(p).Some? && g(p).value <= visited + pending)
    && (forall p :: p in visited + pending ==> Reached(g, roots, stop, p))
  }

  ghost predicate AllAccepted(g: Graph, roots: set<string>, stop: set<string>) {
    forall p :: Reached(g, roots, stop, p) && p !in stop ==> g(p).Some?
  }

  ghost predicate AreReached(g: Graph, roots: set<string>, stop: set<string>, docs: set<string>) {
    forall p :: p in docs <==> Reached(g, roots, stop, p)
  }

  lemma StartsWorking(g: Graph, roots: set<string>, stop: set<string>)
    ensures Working(g, roots, stop, {}, roots)
  {
    forall p | p in roots ensures Reached(g, roots, stop, p) {
      RootIsReached(g, roots, stop, p);
    }
  }

  lemma VisitKeepsWorking(g: Graph, roots: set<string>, stop: set<string>, visited: set<string>, rest: set<string>,
                          current: string)
    requires Working(g, roots, stop, visited, rest + {current}) && current !in stop && g(current).Some?
    ensures Working(g, roots, stop, visited + {current}, rest + g(current).value)
  {
    forall q | q in g(current).value ensures Reached(g, roots, stop, q) {
      assert Edge(g, stop, current, q);
      EdgeIsReached(g, roots, stop, current, q);
    }
  }

  lemma SkipKeepsWorking(g: Graph, roots: set<string>, stop: set<string>, visited: set<string>, rest: set<string>,
                         current: string)
    requires Working(g, roots, stop, visited, rest + {current}) && current in visited
    ensures Working(g, roots, stop, visited, rest)
  {
    assert visited + (rest + {current}) == visited + rest;
  }

  lemma RefusalIsReached(g: Graph, roots: set<string>, stop: set<string>, visited: set<string>, pending: set<string>,
                         current: string)
    requires Working(g, roots, stop, visited, pending) && current in pending && current !in stop && g(current).None?
    ensures !AllAccepted(g, roots, stop)
  {
    assert current in visited + pending;
  }

  /** An empty worklist has visited exactly the reached documents. */
  lemma DoneIsReached(g: Graph, roots: set<string>, stop: set<string>, visited: set<string>)
    requires Working(g, roots, stop, visited, {})
    ensures AllAccepted(g, roots, stop) && AreReached(g, roots, stop, visited)
  {
    var docs := iset p | p in visited;
    assert visited + {} == visited;
    assert Closed(g, stop, docs);
    ReachedIsLeast(g, roots, stop, docs);
  }

  lemma PopLast(pending: seq<string>)
    requires pending != []
    ensures Elements(pending) == Elements(pending[..|pending| - 1]) + {pending[|pending| - 1]}
  {
    assert pending == pending[..|pending| - 1] + [pending[|pending| - 1]];
  }

  lemma FewerLeft(all: set<string>, visited: set<string>, current: string)
    requires current in all && current !in visited
    ensures |all - (visited + {current})| < |all - visited|
  {
    assert all - visited == (all - (visited + {current})) + {current};
  }
}
