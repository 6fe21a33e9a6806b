/** The Compose build helper of scripts/dev/acp_compose.py: dependency closure and build targets. */
module ComposeBuild {

  const ACP_ROLE_SERVICES := ["runtime-adapter", "acp-product-runner", "acp-judgment-runner"]
  const ACP_CANONICAL_TARGET := "runtime-adapter"
  const ACP_EXTRA_ROLE_TARGETS := ["acp-product-runner", "acp-judgment-runner"]

  datatype Service = Service(dependsOn: seq<string>, hasBuild: bool)

  /** The merged configuration: its services, and their names in document order. */
  datatype Config = Config(names: seq<string>, services: map<string, Service>)

  function Dependencies(c: Config, name: string): seq<string> {
    if name in c.services then c.services[name].dependsOn else []
  }

  predicate HasBuild(c: Config, name: string) {
    name in c.services && c.services[name].hasBuild
  }

  /** A chain of dependencies from its first name to its last. */
  ghost predicate Chain(c: Config, p: seq<string>) {
    p != [] && forall i :: 0 <= i < |p| - 1 ==> p[i + 1] in Dependencies(c, p[i])
  }

  ghost predicate Reachable(c: Config, roots: seq<string>, name: string) {
    exists p :: Chain(c, p) && p[0] in roots && p[|p| - 1] == name
  }

  predicate Distinct(s: seq<string>) {
    forall i, j :: 0 <= i < j < |s| ==> s[i] != s[j]
  }

  /** Every name that can turn up: the roots and all declared dependencies. */
  ghost function Universe(c: Config, roots: seq<string>): set<string> {
    (set x | x in roots) + (set n, d | n in c.services && d in c.services[n].dependsOn :: d)
  }

  ghost function Elements(s: seq<string>): set<string> { set x | x in s }

  lemma ReachableStep(c: Config, roots: seq<string>, name: string, next: string)
    requires Reachable(c, roots, name) && next in Dependencies(c, name)
    ensures Reachable(c, roots, next)
  {
    var p :| Chain(c, p) && p[0] in roots && p[|p| - 1] == name;
    var q := p + [next];
    assert Chain(c, q) && q[0] in roots && q[|q| - 1] == next;
  }

  lemma RootReachable(c: Config, roots: seq<string>, name: string)
    requires name in roots
    ensures Reachable(c, roots, name)
  {
    assert Chain(c, [name]) && [name][0] in roots && [name][|[name]| - 1] == name;
  }

  /** A set that holds the roots and is closed under dependencies holds every chain from a root. */
  lemma {:induction false} ChainStaysInside(c: Config, roots: seq<string>, inside: seq<string>, p: seq<string>, k: nat)
    requires Chain(c, p) && p[0] in roots && k < |p|
    requires forall x <- roots :: x in inside
    requires forall x <- inside :: forall y <- Dependencies(c, x) :: y in inside
    ensures p[k] in inside
  {
    if k > 0 {
      ChainStaysInside(c, roots, inside, p, k - 1);
    }
  }

  lemma ClosedHoldsReachable(c: Config, roots: seq<string>, inside: seq<string>)
    requires forall x <- roots :: x in inside
    requires forall x <- inside :: forall y <- Dependencies(c, x) :: y in inside
    ensures forall x :: Reachable(c, roots, x) ==> x in inside
  {
    forall x | Reachable(c, roots, x) ensures x in inside {
      var p :| Chain(c, p) && p[0] in roots && p[|p| - 1] == x;
      ChainStaysInside(c, roots, inside, p, |p| - 1);
    }
  }

  /** What the worklist keeps: only reachable names, no name twice, nothing reachable lost. */
  ghost predicate Explored(c: Config, roots: seq<string>, ordered: seq<string>, pending: seq<string>) {
    && Distinct(ordered)
    && (forall x :: x in ordered || x in pending ==> Reachable(c, roots, x) && x in Universe(c, roots))
    && (forall x <- roots :: x in ordered || x in pending)
    && (forall x <- ordered :: forall y <- Dependencies(c, x) :: y in ordered || y in pending)
  }

  lemma StartExplored(c: Config, roots: seq<string>)
    ensures Explored(c, roots, [], roots)
  {
    forall x <- roots ensures Reachable(c, roots, x) { RootReachable(c, roots, x); }
  }

  lemma SkipKeepsExplored(c: Config, roots: seq<string>, ordered: seq<string>, pending: seq<string>)
    requires Explored(c, roots, ordered, pending) && pending != [] && pending[0] in ordered
    ensures Explored(c, roots, ordered, pending[1..])
  {
    assert forall x <- pending :: x == pending[0] || x in pending[1..];
  }

  lemma VisitKeepsExplored(c: Config, roots: seq<string>, ordered: seq<string>, pending: seq<string>)
    requires Explored(c, roots, ordered, pending) && pending != [] && pending[0] !in ordered
    ensures Explored(c, roots, ordered + [pending[0]], pending[1..] + Dependencies(c, pending[0]))
  {
    var name := pending[0];
    assert forall x <- pending :: x == name || x in pending[1..];
    forall y <- Dependencies(c, name) ensures Reachable(c, roots, y) { ReachableStep(c, roots, name, y); }
  }

  lemma VisitShrinks(c: Config, roots: seq<string>, ordered: seq<string>, name: string)
    requires name !in ordered && name in Universe(c, roots)
    ensures Universe(c, roots) - Elements(ordered + [name]) < Universe(c, roots) - Elements(ordered)
  {
    assert name in Universe(c, roots) - Elements(ordered);
    assert name in Elements(ordered + [name]);
    assert Elements(ordered) <= Elements(ordered + [name]);
  }

  /** The worklist: exactly the reachable names, each once; it ends although the graph may be cyclic. */
  method DependencyClosure(c: Config, roots: seq<string>) returns (ordered: seq<string>)
    ensures forall x :: x in ordered <==> Reachable(c, roots, x)
    ensures Distinct(ordered)
  {
    ordered := [];
    var pending := roots;
    StartExplored(c, roots);
    while pending != []
      invariant Explored(c, roots, ordered, pending)
      decreases Universe(c, roots) - Elements(ordered), |pending|
    {
      var name := pending[0];
      if name in ordered {
        SkipKeepsExplored(c, roots, ordered, pending);
        pending := pending[1..];
      } else {
        VisitKeepsExplored(c, roots, ordered, pending);
        VisitShrinks(c, roots, ordered, name);
        ordered := ordered + [name];
        pending := pending[1..] + Dependencies(c, name);
      }
    }
    ClosedHoldsReachable(c, roots, ordered);
  }

  /** The names with a property, in their order. */
  function Keep(names: seq<string>, keep: string -> bool): (r: seq<string>)
    ensures forall x :: x in r <==> x in names && keep(x)
    ensures Distinct(names) ==> Distinct(r)
  {
    if names == [] then []
    else if keep(names[0]) then [names[0]] + Keep(names[1..], keep)
    else Keep(names[1..], keep)
  }

  /** The names a build is asked for: the closure of the selection, or every declared service. */
  ghost predicate Selected(c: Config, services: seq<string>, name: string) {
    if services != [] then Reachable(c, services, name) else name in c.names
  }

  /** Under the single-image route the canonical target stands for every role; no extra role is built. */
  method BuildTargets(c: Config, services: seq<string>, singleImage: bool) returns (targets: seq<string>)
    requires Distinct(c.names)
    ensures Distinct(targets)
    ensures !singleImage ==> forall x :: x in targets <==> Selected(c, services, x) && HasBuild(c, x)
    ensures singleImage ==> forall x <- ACP_EXTRA_ROLE_TARGETS :: x !in targets
    ensures singleImage ==>
              (ACP_CANONICAL_TARGET in targets <==>
               HasBuild(c, ACP_CANONICAL_TARGET) && exists x <- ACP_ROLE_SERVICES :: Selected(c, services, x))
    ensures singleImage ==>
              forall x :: x !in ACP_ROLE_SERVICES ==> (x in targets <==> Selected(c, services, x) && HasBuild(c, x))
  {
    var selected := c.names;
    if services != [] {
      selected := DependencyClosure(c, services);
    }
    assert forall x :: x in selected <==> Selected(c, services, x);
    if singleImage {
      var hasAcp := exists x :: x in selected && x in ACP_ROLE_SERVICES;
      selected := Keep(selected, name => name !in ACP_EXTRA_ROLE_TARGETS);
      if hasAcp && ACP_CANONICAL_TARGET !in selected {
        selected := selected + [ACP_CANONICAL_TARGET];
      }
    }
    targets := Keep(selected, name => HasBuild(c, name));
  }
}
