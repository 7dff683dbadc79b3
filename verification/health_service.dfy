/** The health report (`HealthService.checkAll`): one probe per backing
    service, and an overall status. A probe's outcome is a parameter,
    `check(name)`, standing for the checker bean of that name. */
module HealthService {
  import opened Wrappers

  /** `ServiceHealth`; the status may be null. */
  datatype ServiceHealth = ServiceHealth(status: Option<string>, message: Option<string>, responseTimeMs: Option<int>)

  /** `HealthResponse`. */
  datatype HealthResponse = HealthResponse(status: string, services: map<string, ServiceHealth>)

  const Up := "UP"
  const Down := "DOWN"

  /** The probed services, in probing order. */
  const Services: seq<string> := ["database", "redis", "mailslurp", "radicale", "llm"]

  predicate IsUp(h: ServiceHealth) {
    h.status == Some(Up)
  }

  /** `HealthResponse.isHealthy`. */
  predicate IsHealthy(r: HealthResponse) {
    r.status == Up
  }

  /** The report over the probes taken so far, `names` in order. */
  function Report(names: seq<string>, check: string -> ServiceHealth): (m: map<string, ServiceHealth>)
    ensures m.Keys == set k | 0 <= k < |names| :: names[k]
    ensures forall name :: name in m ==> m[name] == check(name)
  {
    if names == [] then map[]
    else Report(names[..|names| - 1], check)[names[|names| - 1] := check(names[|names| - 1])]
  }

  predicate AllUp(services: map<string, ServiceHealth>) {
    forall name :: name in services ==> IsUp(services[name])
  }

  /** `checkAll`: every service probed, each entry its own probe's result,
      "UP" exactly when every entry reports "UP" (a null status counts as
      not up), and "DOWN" otherwise. */
  function CheckAll(check: string -> ServiceHealth): (r: HealthResponse)
    ensures r.services.Keys == set k | 0 <= k < |Services| :: Services[k]
    ensures forall name :: name in r.services ==> r.services[name] == check(name)
    ensures r.status == Up || r.status == Down
    ensures IsHealthy(r) <==> AllUp(r.services)
  {
    var services := Report(Services, check);
    HealthResponse(if AllUp(services) then Up else Down, services)
  }

  lemma {:induction false} ServiceNames()
    ensures (set k | 0 <= k < |Services| :: Services[k]) == {"database", "redis", "mailslurp", "radicale", "llm"}
  {
    assert Services[0] == "database" && Services[1] == "redis" && Services[2] == "mailslurp";
    assert Services[3] == "radicale" && Services[4] == "llm";
  }

  /** The report has exactly the five named entries, one per probe. */
  lemma {:induction false} FiveServices(check: string -> ServiceHealth)
    ensures CheckAll(check).services.Keys == {"database", "redis", "mailslurp", "radicale", "llm"}
    ensures |CheckAll(check).services| == 5
  {
    ServiceNames();
    NamesDistinct();
    var keys := CheckAll(check).services.Keys;
    assert |keys| == |CheckAll(check).services|;
  }

  lemma {:induction false} NamesDistinct()
    ensures |{"database", "redis", "mailslurp", "radicale", "llm"}| == 5
  {
    var one: set<string> := {"database"};
    assert |"redis"| != |"database"|;
    var two := one + {"redis"};
    assert |"mailslurp"| != |"database"| && |"mailslurp"| != |"redis"|;
    var three := two + {"mailslurp"};
    assert "radicale"[0] != "database"[0] && |"radicale"| != |"redis"| && |"radicale"| != |"mailslurp"|;
    var four := three + {"radicale"};
    assert |"llm"| != |"database"| && |"llm"| != |"redis"| && |"llm"| != |"mailslurp"| && |"llm"| != |"radicale"|;
    var five := four + {"llm"};
    assert five == {"database", "redis", "mailslurp", "radicale", "llm"};
  }

  /** One service that is not up makes the whole report "DOWN", and the
      report is "UP" when all five probes are. */
  lemma {:induction false} OneDownIsDown(check: string -> ServiceHealth, name: string)
    ensures name in Services && !IsUp(check(name)) ==> CheckAll(check).status == Down
    ensures (forall k :: 0 <= k < |Services| ==> IsUp(check(Services[k]))) ==> CheckAll(check).status == Up
  {
    var r := CheckAll(check);
    if name in Services && !IsUp(check(name)) {
      var k :| 0 <= k < |Services| && Services[k] == name;
      assert name in r.services;
    }
  }
}
