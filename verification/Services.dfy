/** Compose services and the graph spanned by their `depends_on` lists. */
module Services {
  import opened Graphs

  datatype Service = Service(
    name: string,
    image: string,
    environment: map<string, string>,
    dependsOn: seq<string>,
    ports: seq<nat>)

  function Names(services: seq<Service>): set<string> {
    set s | s in services :: s.name
  }

  /** Services are listed from a map keyed by name. */
  ghost predicate DistinctNames(services: seq<Service>) {
    forall i, j :: 0 <= i < j < |services| ==> services[i].name != services[j].name
  }

  ghost predicate AllDependenciesDefined(services: seq<Service>) {
    forall s, d :: s in services && d in s.dependsOn ==> d in Names(services)
  }

  /** As the detector builds it: a later entry for a name replaces an earlier one. */
  function DependencyGraph(services: seq<Service>): Graph<string> {
    if services == [] then map[]
    else
      var last := services[|services| - 1];
      DependencyGraph(services[..|services| - 1])[last.name := last.dependsOn]
  }

  lemma {:induction false} NamesAreKeys(services: seq<Service>)
    ensures DependencyGraph(services).Keys == Names(services)
  {
    if services != [] {
      var init := services[..|services| - 1];
      NamesAreKeys(init);
      assert services == init + [services[|services| - 1]];
    }
  }

  lemma {:induction false} GraphOfDistinctNames(services: seq<Service>)
    requires DistinctNames(services)
    ensures forall s :: s in services ==> Deps(DependencyGraph(services), s.name) == s.dependsOn
  {
    if services != [] {
      var last := services[|services| - 1];
      var init := services[..|services| - 1];
      GraphOfDistinctNames(init);
      forall s | s in services ensures Deps(DependencyGraph(services), s.name) == s.dependsOn {
        var i :| 0 <= i < |services| && services[i] == s;
        if i < |init| {
          assert init[i] == s && s in init;
        }
      }
    }
  }
}
