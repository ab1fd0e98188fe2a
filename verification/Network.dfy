/** The services of a fleet of hosts as the controllers reach them. */
module Network {
  import opened TrafficElements
  import opened ConnectedState
  import opened Deployment
  import opened TrafficApp

  ghost function Databases(hosts: map<Endpoint, TrafficApp>): set<ConnectedStateProcessor> {
    set h | h in hosts :: hosts[h].db
  }

  /** What is stored at all hosts. */
  ghost function FleetOf(hosts: map<Endpoint, TrafficApp>): Fleet
    reads Databases(hosts)
  {
    map h | h in hosts :: hosts[h].db.Listed()
  }

  /** Whether a request gets through to its host, and whether the answer gets back. */
  datatype Fate = Fate(request: bool, answer: bool)

  ghost predicate Separate(hosts: map<Endpoint, TrafficApp>) {
    forall g, h :: g in hosts && h in hosts && g != h ==> hosts[g].db != hosts[h].db
  }

  /** One register request to one host. */
  method Request(h: Endpoint, configs: seq<TrafficConfig>, hosts: map<Endpoint, TrafficApp>)
    requires h in hosts && Separate(hosts)
    modifies hosts[h].db
    ensures FleetOf(hosts) == old(FleetOf(hosts)[h := RecordedAll(FleetOf(hosts)[h], configs)])
  {
    hosts[h].RegisterTraffic(configs);
  }
}
