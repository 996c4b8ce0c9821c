/** network/switch.go and network/team_network.go: reconfiguring the field switch for the teams on
    the field. The switch is an interpreter of configuration lines, and a batch of lines sent over
    Telnet may fail after any prefix of it has taken effect. */
module TeamSwitch {
  import opened Common

  type Team = n: int | 0 < n witness 1

  const STATIONS: nat := 6

  type Lineup = teams: seq<Option<Team>> | |teams| == STATIONS witness [None, None, None, None, None, None]

  function Vlan(station: nat): int
    requires station < STATIONS
  {
    10 * (station + 1)
  }

  /** The team numbers, with 0 for an empty station. */
  function TeamId(team: Option<Team>): int { if team.Some? then team.value else 0 }

  function TeamIds(teams: Lineup): (ids: seq<int>)
    ensures |ids| == STATIONS
    ensures forall i :: 0 <= i < STATIONS ==> ids[i] == TeamId(teams[i])
  {
    seq(STATIONS, i requires 0 <= i < STATIONS => TeamId(teams[i]))
  }

  /** A team's /24: Team 841 gets 10.8.41. */
  datatype Subnet = Subnet(second: int, third: int)

  function TeamSubnet(team: Team): Subnet { Subnet(team / 100, team % 100) }

  /** The team can be read back from its network: Team 841's is 10.8.41. */
  predicate IsNetworkOf(subnet: Subnet, team: int) {
    0 <= subnet.third < 100 && 100 * subnet.second + subnet.third == team
  }

  lemma TeamReadsBack(team: Team, subnet: Subnet)
    ensures IsNetworkOf(subnet, team) <==> subnet == TeamSubnet(team)
  {
  }

  lemma TeamSubnetInjective(t: Team, u: Team)
    ensures TeamSubnet(t) == TeamSubnet(u) ==> t == u
  {
  }

  // ------------------------------------------------------------------------------ the device

  datatype Address = Address(subnet: Subnet, host: int)

  const GATEWAY_HOST := 4
  const LEASE_DAYS := 7

  datatype Pool = Pool(network: Option<Subnet>, router: Option<Address>, dns: Option<string>, lease: Option<int>)

  const NEW_POOL := Pool(None, None, None, None)

  /** One line of configuration. `Standing` is a line of the standing configuration, which says
      nothing about a team VLAN's address or pool. */
  datatype Command =
    | Standing(line: nat)
    | Interface(vlan: int)
    | NoIpAddress
    | IpAddress(address: Address)
    | ExcludedAddress(subnet: Subnet, low: int, high: int)
    | NoDhcpPool(vlan: int)
    | DhcpPool(vlan: int)
    | Network(subnet: Subnet)
    | DefaultRouter(address: Address)
    | DnsServer(server: string)
    | Lease(days: int)

  datatype Context = Global | InInterface(vlan: int) | InPool(vlan: int)

  /** Addresses of a subnet that are not to be leased. */
  datatype Exclusion = Exclusion(subnet: Subnet, low: int, high: int)

  datatype Device = Device(
    context: Context,
    addresses: map<int, Address>,
    pools: map<int, Pool>,
    excluded: set<Exclusion>,
    standing: set<nat>)
  {
    /** A line takes effect in the context the lines before it set up; elsewhere it is rejected. */
    function Exec(c: Command): Device {
      match c
      case Standing(line) => this.(context := Global, standing := standing + {line})
      case Interface(vlan) => this.(context := InInterface(vlan))
      case NoIpAddress =>
        if context.InInterface? then this.(addresses := addresses - {context.vlan}) else this
      case IpAddress(address) =>
        if context.InInterface? then this.(addresses := addresses[context.vlan := address]) else this
      case ExcludedAddress(subnet, low, high) =>
        this.(context := Global, excluded := excluded + {Exclusion(subnet, low, high)})
      case NoDhcpPool(vlan) => this.(context := Global, pools := pools - {vlan})
      case DhcpPool(vlan) =>
        this.(context := InPool(vlan), pools := if vlan in pools then pools else pools[vlan := NEW_POOL])
      case Network(subnet) => InOpenPool((p: Pool) => p.(network := Some(subnet)))
      case DefaultRouter(address) => InOpenPool((p: Pool) => p.(router := Some(address)))
      case DnsServer(server) => InOpenPool((p: Pool) => p.(dns := Some(server)))
      case Lease(days) => InOpenPool((p: Pool) => p.(lease := Some(days)))
    }

    function InOpenPool(change: Pool -> Pool): Device {
      if context.InPool? && context.vlan in pools
      then this.(pools := pools[context.vlan := change(pools[context.vlan])])
      else this
    }

    function ExecAll(commands: seq<Command>): Device
      decreases |commands|
    {
      if commands == [] then this else Exec(commands[0]).ExecAll(commands[1..])
    }

    /** What a station's VLAN holds: its interface address and its DHCP pool. */
    function Held(vlan: int): Station {
      Station(if vlan in addresses then Some(addresses[vlan]) else None,
              if vlan in pools then Some(pools[vlan]) else None)
    }
  }

  datatype Station = Station(address: Option<Address>, pool: Option<Pool>)

  const EMPTY_STATION := Station(None, None)

  /** What a station's VLAN should hold for a team. */
  function Wanted(team: Option<Team>, dns: string): Station {
    if team.None? then EMPTY_STATION
    else
      var gateway := Address(TeamSubnet(team.value), GATEWAY_HOST);
      Station(Some(gateway),
              Some(Pool(Some(TeamSubnet(team.value)), Some(gateway),
                        if dns == "" then None else Some(dns), Some(LEASE_DAYS))))
  }

  /** Only addresses 20 to 199 of a team's network are for its own machines. */
  function Exclusions(subnet: Subnet): set<Exclusion> { {Exclusion(subnet, 1, 19), Exclusion(subnet, 200, 254)} }

  /** How sending a batch went: everything took effect, or it failed after some of its lines. */
  datatype Outcome = Done | Failed(applied: nat)

  function Prefix(commands: seq<Command>, outcome: Outcome): seq<Command> {
    if outcome.Failed? && outcome.applied < |commands| then commands[..outcome.applied] else commands
  }

  /** A batch starts and ends in global configuration. */
  function Sent(device: Device, commands: seq<Command>, outcome: Outcome): Device {
    device.(context := Global).ExecAll(Prefix(commands, outcome)).(context := Global)
  }

  // ----------------------------------------------------------------------------- the commands

  /** The standing configuration: routing, time, the management address, the VLAN database and the
      station, trunk and lighting ports. */
  const BASELINE_LINES: nat := 74

  function BaselineCommands(): seq<Command> { seq(BASELINE_LINES, i requires 0 <= i => Standing(i)) }

  function RemoveStation(vlan: int): seq<Command> {
    [Interface(vlan), NoIpAddress, NoDhcpPool(vlan)]
  }

  function AddStation(team: Option<Team>, vlan: int, dns: string): seq<Command> {
    if team.None? then []
    else
      var subnet := TeamSubnet(team.value);
      [ExcludedAddress(subnet, 1, 19), ExcludedAddress(subnet, 200, 254),
       DhcpPool(vlan), Network(subnet), DefaultRouter(Address(subnet, GATEWAY_HOST))]
      + (if dns != "" then [DnsServer(dns)] else [])
      + [Lease(LEASE_DAYS), Interface(vlan), IpAddress(Address(subnet, GATEWAY_HOST))]
  }

  /** The removal lines for the first n stations, and the addition lines. */
  function RemoveCommands(rebuild: seq<bool>, n: nat): seq<Command>
    requires n <= |rebuild| == STATIONS
  {
    if n == 0 then []
    else RemoveCommands(rebuild, n - 1) + if rebuild[n - 1] then RemoveStation(Vlan(n - 1)) else []
  }

  function AddCommands(teams: Lineup, rebuild: seq<bool>, dns: string, n: nat): seq<Command>
    requires n <= |rebuild| == STATIONS
  {
    if n == 0 then []
    else AddCommands(teams, rebuild, dns, n - 1)
         + if rebuild[n - 1] then AddStation(teams[n - 1], Vlan(n - 1), dns) else []
  }

  // ------------------------------------------------------------------- what the commands achieve

  lemma {:induction false} ExecAllAppend(device: Device, s: seq<Command>, t: seq<Command>)
    ensures device.ExecAll(s + t) == device.ExecAll(s).ExecAll(t)
    decreases |s|
  {
    if s == [] {
      assert s + t == t;
    } else {
      assert (s + t)[1..] == s[1..] + t;
      ExecAllAppend(device.Exec(s[0]), s[1..], t);
    }
  }

  lemma ExecOne(device: Device, c: Command)
    ensures device.ExecAll([c]) == device.Exec(c)
  {
    assert [c][1..] == [];
  }

  lemma ExecCons(device: Device, c: Command, rest: seq<Command>)
    ensures device.ExecAll([c] + rest) == device.Exec(c).ExecAll(rest)
  {
    assert ([c] + rest)[1..] == rest;
  }

  // The standing configuration and the exclusions are only ever added to.

  predicate Grows(device: Device, after: Device) {
    device.excluded <= after.excluded && device.standing <= after.standing
  }

  lemma {:induction false} ExecAllGrows(device: Device, commands: seq<Command>)
    ensures Grows(device, device.ExecAll(commands))
    decreases |commands|
  {
    if commands != [] { ExecAllGrows(device.Exec(commands[0]), commands[1..]); }
  }

  /** The addresses of a team's network that its machines must not be leased are kept from them. */
  predicate Excludes(device: Device, team: Option<Team>) {
    team.Some? ==> Exclusions(TeamSubnet(team.value)) <= device.excluded
  }

  predicate HasBaseline(device: Device) { forall line: nat :: line < BASELINE_LINES ==> line in device.standing }

  lemma {:induction false} StandingLines(device: Device, n: nat)
    requires n <= BASELINE_LINES
    ensures forall line: nat :: line < n ==> line in device.ExecAll(BaselineCommands()[..n]).standing
  {
    if n > 0 {
      StandingLines(device, n - 1);
      var before := device.ExecAll(BaselineCommands()[..n - 1]);
      assert BaselineCommands()[..n] == BaselineCommands()[..n - 1] + [Standing(n - 1)];
      ExecAllAppend(device, BaselineCommands()[..n - 1], [Standing(n - 1)]);
      ExecOne(before, Standing(n - 1));
    }
  }

  lemma BaselineStands(device: Device)
    ensures HasBaseline(Sent(device, BaselineCommands(), Done))
  {
    StandingLines(device.(context := Global), BASELINE_LINES);
    assert BaselineCommands()[..BASELINE_LINES] == BaselineCommands();
  }

  lemma SentGrows(device: Device, commands: seq<Command>, outcome: Outcome)
    ensures Grows(device, Sent(device, commands, outcome))
  {
    ExecAllGrows(device.(context := Global), Prefix(commands, outcome));
  }

  /** The removal block clears its own VLAN and leaves every other one alone. */
  lemma RemoveStationClears(device: Device, vlan: int)
    ensures var after := device.ExecAll(RemoveStation(vlan));
            && after.Held(vlan) == EMPTY_STATION
            && forall v :: v != vlan ==> after.Held(v) == device.Held(v)
  {
    assert RemoveStation(vlan) == [Interface(vlan)] + ([NoIpAddress] + [NoDhcpPool(vlan)]);
    ExecCons(device, Interface(vlan), [NoIpAddress] + [NoDhcpPool(vlan)]);
    var d1 := device.Exec(Interface(vlan));
    ExecCons(d1, NoIpAddress, [NoDhcpPool(vlan)]);
    ExecOne(d1.Exec(NoIpAddress), NoDhcpPool(vlan));
  }

  /** The addition block turns an empty VLAN into what the team should have. */
  lemma AddStationBuilds(device: Device, team: Option<Team>, vlan: int, dns: string)
    requires device.Held(vlan) == EMPTY_STATION
    ensures var after := device.ExecAll(AddStation(team, vlan, dns));
            && after.Held(vlan) == Wanted(team, dns)
            && Excludes(after, team)
            && forall v :: v != vlan ==> after.Held(v) == device.Held(v)
  {
    if team.Some? {
      var subnet := TeamSubnet(team.value);
      var gateway := Address(subnet, GATEWAY_HOST);
      var head := [ExcludedAddress(subnet, 1, 19), ExcludedAddress(subnet, 200, 254),
                   DhcpPool(vlan), Network(subnet), DefaultRouter(gateway)];
      var middle := if dns != "" then [DnsServer(dns)] else [];
      var tail := [Lease(LEASE_DAYS), Interface(vlan), IpAddress(gateway)];
      ExecAllAppend(device, head + middle, tail);
      ExecAllAppend(device, head, middle);
      PoolOpens(device, subnet, vlan);
      var d1 := device.ExecAll(head);
      if dns != "" { ExecOne(d1, DnsServer(dns)); }
      InterfaceOpens(d1.ExecAll(middle), vlan, gateway);
    }
  }

  lemma PoolOpens(device: Device, subnet: Subnet, vlan: int)
    requires vlan !in device.pools
    ensures var gateway := Address(subnet, GATEWAY_HOST);
            device.ExecAll([ExcludedAddress(subnet, 1, 19), ExcludedAddress(subnet, 200, 254),
                            DhcpPool(vlan), Network(subnet), DefaultRouter(gateway)]) ==
            device.(context := InPool(vlan), excluded := device.excluded + Exclusions(subnet),
                    pools := device.pools[vlan := Pool(Some(subnet), Some(gateway), None, None)])
  {
    var gateway := Address(subnet, GATEWAY_HOST);
    var c := [ExcludedAddress(subnet, 1, 19), ExcludedAddress(subnet, 200, 254),
              DhcpPool(vlan), Network(subnet), DefaultRouter(gateway)];
    var d1 := device.Exec(c[0]);
    var d2 := d1.Exec(c[1]);
    var d3 := d2.Exec(c[2]);
    var d4 := d3.Exec(c[3]);
    var d5 := d4.Exec(c[4]);
    assert c == [c[0]] + ([c[1]] + ([c[2]] + ([c[3]] + [c[4]])));
    ExecCons(device, c[0], [c[1]] + ([c[2]] + ([c[3]] + [c[4]])));
    ExecCons(d1, c[1], [c[2]] + ([c[3]] + [c[4]]));
    ExecCons(d2, c[2], [c[3]] + [c[4]]);
    ExecCons(d3, c[3], [c[4]]);
    ExecOne(d4, c[4]);
  }

  lemma InterfaceOpens(device: Device, vlan: int, gateway: Address)
    requires device.context == InPool(vlan) && vlan in device.pools
    ensures device.ExecAll([Lease(LEASE_DAYS), Interface(vlan), IpAddress(gateway)]) ==
            device.(context := InInterface(vlan), addresses := device.addresses[vlan := gateway],
                    pools := device.pools[vlan := device.pools[vlan].(lease := Some(LEASE_DAYS))])
  {
    var c := [Lease(LEASE_DAYS), Interface(vlan), IpAddress(gateway)];
    var d1 := device.Exec(c[0]);
    assert c == [c[0]] + ([c[1]] + [c[2]]);
    ExecCons(device, c[0], [c[1]] + [c[2]]);
    ExecCons(d1, c[1], [c[2]]);
    ExecOne(d1.Exec(c[1]), c[2]);
  }

  /** After the removal batch every station to rebuild is empty, and the rest are as they were. */
  lemma {:induction false} RemovalClears(device: Device, rebuild: seq<bool>, n: nat)
    requires n <= |rebuild| == STATIONS
    ensures var after := device.ExecAll(RemoveCommands(rebuild, n));
            forall i: nat :: i < STATIONS ==>
              after.Held(Vlan(i)) == if i < n && rebuild[i] then EMPTY_STATION else device.Held(Vlan(i))
  {
    if n > 0 {
      RemovalClears(device, rebuild, n - 1);
      if rebuild[n - 1] {
        var before := device.ExecAll(RemoveCommands(rebuild, n - 1));
        ExecAllAppend(device, RemoveCommands(rebuild, n - 1), RemoveStation(Vlan(n - 1)));
        RemoveStationClears(before, Vlan(n - 1));
      } else {
        assert RemoveCommands(rebuild, n - 1) + [] == RemoveCommands(rebuild, n - 1);
      }
    }
  }

  lemma {:induction false} AdditionBuilds(device: Device, teams: Lineup, rebuild: seq<bool>, dns: string, n: nat)
    requires n <= |rebuild| == STATIONS
    requires forall i: nat :: i < STATIONS && rebuild[i] ==> device.Held(Vlan(i)) == EMPTY_STATION
    ensures var after := device.ExecAll(AddCommands(teams, rebuild, dns, n));
            forall i: nat :: i < STATIONS ==>
              after.Held(Vlan(i)) == if i < n && rebuild[i] then Wanted(teams[i], dns) else device.Held(Vlan(i))
  {
    if n > 0 {
      AdditionBuilds(device, teams, rebuild, dns, n - 1);
      var earlier := AddCommands(teams, rebuild, dns, n - 1);
      if rebuild[n - 1] {
        ExecAllAppend(device, earlier, AddStation(teams[n - 1], Vlan(n - 1), dns));
        AddStationBuilds(device.ExecAll(earlier), teams[n - 1], Vlan(n - 1), dns);
      } else {
        assert earlier + [] == earlier;
      }
    }
  }

  lemma {:induction false} AdditionExcludes(device: Device, teams: Lineup, rebuild: seq<bool>, dns: string, n: nat)
    requires n <= |rebuild| == STATIONS
    requires forall i: nat :: i < STATIONS && rebuild[i] ==> device.Held(Vlan(i)) == EMPTY_STATION
    ensures forall i: nat :: i < n && rebuild[i] ==>
              Excludes(device.ExecAll(AddCommands(teams, rebuild, dns, n)), teams[i])
  {
    if n > 0 {
      AdditionExcludes(device, teams, rebuild, dns, n - 1);
      var earlier := AddCommands(teams, rebuild, dns, n - 1);
      if rebuild[n - 1] {
        var block := AddStation(teams[n - 1], Vlan(n - 1), dns);
        ExecAllAppend(device, earlier, block);
        ExecAllGrows(device.ExecAll(earlier), block);
        AdditionBuilds(device, teams, rebuild, dns, n - 1);
        AddStationBuilds(device.ExecAll(earlier), teams[n - 1], Vlan(n - 1), dns);
      } else {
        assert earlier + [] == earlier;
      }
    }
  }

  // -------------------------------------------------------------------------- one whole call

  datatype Status = Unknown | Disabled | Configuring | Active | Failing

  /** The switch driver's own memory: the lineup it last completed, and whether to trust it. */
  datatype Driver = Driver(applied: seq<int>, synced: bool, status: Status)

  const NEW_DRIVER := Driver([0, 0, 0, 0, 0, 0], false, Unknown)

  /** How each batch of a call went. */
  datatype Outcomes = Outcomes(baseline: Outcome, saved: bool, removal: Outcome, addition: Outcome)

  datatype Call = Call(driver: Driver, device: Device, ok: bool)

  function Rebuild(driver: Driver, ids: seq<int>): (rebuild: seq<bool>)
    requires |driver.applied| == |ids| == STATIONS
    ensures |rebuild| == STATIONS
    ensures forall i :: 0 <= i < STATIONS ==> rebuild[i] == (!driver.synced || ids[i] != driver.applied[i])
  {
    seq(STATIONS, i requires 0 <= i < STATIONS => !driver.synced || ids[i] != driver.applied[i])
  }

  function Fail(driver: Driver, device: Device): Call {
    Call(driver.(synced := false, status := Failing), device, false)
  }

  function Configured(configured: bool, dns: string, driver: Driver, device: Device, teams: Lineup, o: Outcomes): Call
    requires |driver.applied| == STATIONS
  {
    var ids := TeamIds(teams);
    if !configured then Call(driver.(status := Disabled), device, true)
    else if driver.synced && ids == driver.applied then Call(driver.(status := Active), device, true)
    else
      var d1 := if driver.synced then device else Sent(device, BaselineCommands(), o.baseline);
      if !driver.synced && (o.baseline.Failed? || !o.saved) then Fail(driver, d1)
      else
        var rebuild := Rebuild(driver, ids);
        var d2 := Sent(d1, RemoveCommands(rebuild, STATIONS), o.removal);
        if o.removal.Failed? then Fail(driver, d2)
        else
          var add := AddCommands(teams, rebuild, dns, STATIONS);
          if add == [] then Call(Driver(ids, true, Active), d2, true)
          else
            var d3 := Sent(d2, add, o.addition);
            if o.addition.Failed? then Fail(driver, d3) else Call(Driver(ids, true, Active), d3, true)
  }

  /** Every station VLAN holds exactly what the lineup dictates. */
  ghost predicate Reflects(device: Device, teams: Lineup, dns: string) {
    forall i: nat :: i < STATIONS ==> device.Held(Vlan(i)) == Wanted(teams[i], dns)
  }

  function TeamOf(id: int): Option<Team> { if id > 0 then Some(id) else None }

  /** What the driver remembers is what the switch holds, whenever it claims to know. */
  ghost predicate Trustworthy(driver: Driver, device: Device, dns: string) {
    && |driver.applied| == STATIONS
    && (driver.synced ==>
          forall i: nat :: i < STATIONS ==>
            && 0 <= driver.applied[i]
            && device.Held(Vlan(i)) == Wanted(TeamOf(driver.applied[i]), dns)
            && Excludes(device, TeamOf(driver.applied[i])))
    && (driver.synced ==> HasBaseline(device))
  }

  /** What a station's VLAN gives the team on it, told without the commands: the field's own address on it is
      host 4 of the team's network; that network is what it leases, for a week, from host 20 to host 199, with
      the field's address as the router; and a name server goes with it exactly if there is one. */
  predicate Serves(device: Device, vlan: int, team: int, dns: string) {
    && vlan in device.addresses && vlan in device.pools
    && var address, pool := device.addresses[vlan], device.pools[vlan];
       && IsNetworkOf(address.subnet, team) && address.host == 4
       && pool.network.Some? && IsNetworkOf(pool.network.value, team)
       && pool.router == Some(address) && pool.lease == Some(7)
       && pool.dns == (if dns == "" then None else Some(dns))
       && Exclusion(address.subnet, 1, 19) in device.excluded && Exclusion(address.subnet, 200, 254) in device.excluded
  }

  /** The field's switch as a lineup wants it: the VLANs 10 to 60 serve the teams of the six stations, those of
      empty stations have neither an address nor a pool, and the standing configuration is there. */
  predicate ServesAll(device: Device, teams: Lineup, dns: string) {
    && HasBaseline(device)
    && forall i: nat :: i < STATIONS ==>
         if teams[i].Some? then Serves(device, 10 * (i + 1), teams[i].value, dns)
         else 10 * (i + 1) !in device.addresses && 10 * (i + 1) !in device.pools
  }

  lemma StationServes(device: Device, i: nat, team: Option<Team>, dns: string)
    requires i < STATIONS && device.Held(Vlan(i)) == Wanted(team, dns) && Excludes(device, team)
    ensures if team.Some? then Serves(device, 10 * (i + 1), team.value, dns)
            else 10 * (i + 1) !in device.addresses && 10 * (i + 1) !in device.pools
  {
    if team.Some? { TeamReadsBack(team.value, TeamSubnet(team.value)); }
  }

  lemma TrustedServes(driver: Driver, device: Device, teams: Lineup, dns: string)
    requires Trustworthy(driver, device, dns) && driver.synced && driver.applied == TeamIds(teams)
    ensures ServesAll(device, teams, dns)
  {
    forall i: nat | i < STATIONS
      ensures if teams[i].Some? then Serves(device, 10 * (i + 1), teams[i].value, dns)
              else 10 * (i + 1) !in device.addresses && 10 * (i + 1) !in device.pools
    {
      assert TeamOf(driver.applied[i]) == teams[i];
      StationServes(device, i, teams[i], dns);
    }
  }

  lemma ContextIsNotHeld(device: Device, vlan: int)
    ensures device.(context := Global).Held(vlan) == device.Held(vlan)
  {
  }

  /** A removal and an addition that both succeed leave the wanted configuration, whatever the
      stations to rebuild held before. */
  lemma RebuildReflects(device: Device, teams: Lineup, rebuild: seq<bool>, dns: string)
    requires |rebuild| == STATIONS
    requires forall i: nat :: i < STATIONS && !rebuild[i] ==> device.Held(Vlan(i)) == Wanted(teams[i], dns)
    ensures Reflects(Sent(Sent(device, RemoveCommands(rebuild, STATIONS), Done),
                          AddCommands(teams, rebuild, dns, STATIONS), Done), teams, dns)
    ensures AddCommands(teams, rebuild, dns, STATIONS) == [] ==>
              Reflects(Sent(device, RemoveCommands(rebuild, STATIONS), Done), teams, dns)
  {
    var d1 := Sent(device, RemoveCommands(rebuild, STATIONS), Done);
    var add := AddCommands(teams, rebuild, dns, STATIONS);
    RemovalClears(device.(context := Global), rebuild, STATIONS);
    AdditionBuilds(d1, teams, rebuild, dns, STATIONS);
    var d2 := Sent(d1, add, Done);
    forall i: nat | i < STATIONS
      ensures d2.Held(Vlan(i)) == Wanted(teams[i], dns)
    {
      ContextIsNotHeld(device, Vlan(i));
      ContextIsNotHeld(device.(context := Global).ExecAll(RemoveCommands(rebuild, STATIONS)), Vlan(i));
      ContextIsNotHeld(d1.ExecAll(add), Vlan(i));
    }
    if add == [] { assert d2 == d1; }
  }

  ghost predicate ExcludesAll(device: Device, teams: Lineup) {
    forall i: nat :: i < STATIONS ==> Excludes(device, teams[i])
  }

  /** And the exclusions of the stations that were rebuilt are added to those of the others. */
  lemma RebuildExcludes(device: Device, teams: Lineup, rebuild: seq<bool>, dns: string)
    requires |rebuild| == STATIONS
    requires forall i: nat :: i < STATIONS && !rebuild[i] ==> Excludes(device, teams[i])
    ensures ExcludesAll(Sent(Sent(device, RemoveCommands(rebuild, STATIONS), Done),
                             AddCommands(teams, rebuild, dns, STATIONS), Done), teams)
    ensures AddCommands(teams, rebuild, dns, STATIONS) == [] ==>
              ExcludesAll(Sent(device, RemoveCommands(rebuild, STATIONS), Done), teams)
  {
    var d1 := Sent(device, RemoveCommands(rebuild, STATIONS), Done);
    var add := AddCommands(teams, rebuild, dns, STATIONS);
    RemovalClears(device.(context := Global), rebuild, STATIONS);
    forall i: nat | i < STATIONS && rebuild[i] ensures d1.Held(Vlan(i)) == EMPTY_STATION {
      ContextIsNotHeld(device.(context := Global).ExecAll(RemoveCommands(rebuild, STATIONS)), Vlan(i));
    }
    SentGrows(device, RemoveCommands(rebuild, STATIONS), Done);
    SentGrows(d1, add, Done);
    AdditionExcludes(d1, teams, rebuild, dns, STATIONS);
    if add == [] { assert Sent(d1, add, Done) == d1; }
  }

  lemma ReflectsIsTrustworthy(device: Device, teams: Lineup, dns: string)
    requires Reflects(device, teams, dns) && ExcludesAll(device, teams) && HasBaseline(device)
    ensures Trustworthy(Driver(TeamIds(teams), true, Active), device, dns)
  {
    forall i: nat | i < STATIONS ensures TeamOf(TeamIds(teams)[i]) == teams[i] {}
  }

  /** A station that a synced driver leaves alone already holds what it should. */
  lemma UnchangedIsWanted(driver: Driver, device: Device, teams: Lineup, dns: string)
    requires Trustworthy(driver, device, dns)
    ensures forall i: nat :: i < STATIONS && !Rebuild(driver, TeamIds(teams))[i] ==>
              device.Held(Vlan(i)) == Wanted(teams[i], dns) && Excludes(device, teams[i])
  {
    forall i: nat | i < STATIONS && !Rebuild(driver, TeamIds(teams))[i]
      ensures device.Held(Vlan(i)) == Wanted(teams[i], dns) && Excludes(device, teams[i])
    {
      assert TeamOf(driver.applied[i]) == teams[i];
    }
  }

  /** A call that sends everything ends with a switch that can be trusted. */
  lemma SendingReconciles(dns: string, driver: Driver, device: Device, teams: Lineup)
    requires Trustworthy(driver, device, dns)
    ensures var rebuild := Rebuild(driver, TeamIds(teams));
            var d1 := if driver.synced then device else Sent(device, BaselineCommands(), Done);
            var d2 := Sent(d1, RemoveCommands(rebuild, STATIONS), Done);
            var add := AddCommands(teams, rebuild, dns, STATIONS);
            && Trustworthy(Driver(TeamIds(teams), true, Active), Sent(d2, add, Done), dns)
            && (add == [] ==> Trustworthy(Driver(TeamIds(teams), true, Active), d2, dns))
  {
    var rebuild := Rebuild(driver, TeamIds(teams));
    var d1 := if driver.synced then device else Sent(device, BaselineCommands(), Done);
    var d2 := Sent(d1, RemoveCommands(rebuild, STATIONS), Done);
    var add := AddCommands(teams, rebuild, dns, STATIONS);
    UnchangedIsWanted(driver, device, teams, dns);
    BaselineStands(device);
    SentGrows(d1, RemoveCommands(rebuild, STATIONS), Done);
    SentGrows(d2, add, Done);
    RebuildReflects(d1, teams, rebuild, dns);
    RebuildExcludes(d1, teams, rebuild, dns);
    ReflectsIsTrustworthy(Sent(d2, add, Done), teams, dns);
    if add == [] { ReflectsIsTrustworthy(d2, teams, dns); }
  }

  /** What a call that succeeds has sent. */
  lemma SuccessSends(dns: string, driver: Driver, device: Device, teams: Lineup, o: Outcomes)
    requires |driver.applied| == STATIONS && !(driver.synced && TeamIds(teams) == driver.applied)
    ensures var call := Configured(true, dns, driver, device, teams, o);
            var d1 := if driver.synced then device else Sent(device, BaselineCommands(), Done);
            var rebuild := Rebuild(driver, TeamIds(teams));
            var d2 := Sent(d1, RemoveCommands(rebuild, STATIONS), Done);
            var add := AddCommands(teams, rebuild, dns, STATIONS);
            if call.ok then call.driver == Driver(TeamIds(teams), true, Active)
                            && call.device == (if add == [] then d2 else Sent(d2, add, Done))
            else call.driver == driver.(synced := false, status := Failing)
  {
  }

  lemma CallIsTrustworthy(dns: string, driver: Driver, device: Device, teams: Lineup, o: Outcomes)
    requires Trustworthy(driver, device, dns)
    ensures var call := Configured(true, dns, driver, device, teams, o);
            && Trustworthy(call.driver, call.device, dns)
            && call.ok == call.driver.synced
            && (call.ok ==> call.driver.applied == TeamIds(teams))
  {
    if !(driver.synced && TeamIds(teams) == driver.applied) {
      SuccessSends(dns, driver, device, teams, o);
      SendingReconciles(dns, driver, device, teams);
    }
  }

  /** Incremental reconfiguration is as good as a full rebuild: a call that succeeds leaves every
      station exactly as the lineup dictates, whether it rebuilt all of them, some or none; and
      success or failure, what the driver goes on to trust is true. It does succeed if nothing sent fails, and
      then only if the standing configuration was saved when it had to be sent. */
  lemma CallReconciles(dns: string, driver: Driver, device: Device, teams: Lineup, o: Outcomes)
    requires Trustworthy(driver, device, dns)
    ensures var call := Configured(true, dns, driver, device, teams, o);
            && Trustworthy(call.driver, call.device, dns)
            && call.ok == call.driver.synced && call.driver.status == (if call.ok then Active else Failing)
            && (call.ok ==> ServesAll(call.device, teams, dns) && call.driver.applied == TeamIds(teams))
            && (o == Outcomes(Done, true, Done, Done) ==> call.ok)
            && (call.ok && !driver.synced ==> o.baseline == Done && o.saved && o.removal == Done)
  {
    var call := Configured(true, dns, driver, device, teams, o);
    CallIsTrustworthy(dns, driver, device, teams, o);
    if call.ok { TrustedServes(call.driver, call.device, teams, dns); }
  }

  // ------------------------------------------------------------------------- whole histories

  /** A request to configure a lineup, and how sending it went. */
  datatype Request = Request(teams: Lineup, outcomes: Outcomes)

  function AfterCalls(dns: string, start: Device, requests: seq<Request>): (call: Call)
    ensures |call.driver.applied| == STATIONS
  {
    if requests == [] then Call(NEW_DRIVER, start, false)
    else
      var before := AfterCalls(dns, start, requests[..|requests| - 1]);
      var r := requests[|requests| - 1];
      Configured(true, dns, before.driver, before.device, r.teams, r.outcomes)
  }

  /** Over any history of requests, from a switch in any state at all, with batches failing part
      way: whenever a call succeeds the switch holds exactly the lineup it was asked for. */
  lemma {:induction false} EveryHistoryReconciles(dns: string, start: Device, requests: seq<Request>)
    ensures var call := AfterCalls(dns, start, requests);
            && Trustworthy(call.driver, call.device, dns)
            && (requests != [] && call.ok ==> ServesAll(call.device, requests[|requests| - 1].teams, dns))
  {
    if requests != [] {
      var before := AfterCalls(dns, start, requests[..|requests| - 1]);
      EveryHistoryReconciles(dns, start, requests[..|requests| - 1]);
      CallReconciles(dns, before.driver, before.device, requests[|requests| - 1].teams,
                     requests[|requests| - 1].outcomes);
    }
  }

  // ------------------------------------------------------------------ every instant of a call

  /** The VLAN a line names. */
  function Target(c: Command): Option<int> {
    match c
    case Interface(vlan) => Some(vlan)
    case NoDhcpPool(vlan) => Some(vlan)
    case DhcpPool(vlan) => Some(vlan)
    case _ => None
  }

  ghost predicate Avoids(commands: seq<Command>, vlan: int) {
    forall i :: 0 <= i < |commands| ==> Target(commands[i]) != Some(vlan)
  }

  predicate Outside(context: Context, vlan: int) {
    context != InInterface(vlan) && context != InPool(vlan)
  }

  lemma {:induction false} AvoidedIsUnchanged(device: Device, commands: seq<Command>, vlan: int)
    requires Outside(device.context, vlan) && Avoids(commands, vlan)
    ensures device.ExecAll(commands).Held(vlan) == device.Held(vlan)
    ensures Outside(device.ExecAll(commands).context, vlan)
    decreases |commands|
  {
    if commands != [] {
      assert Target(commands[0]) != Some(vlan);
      AvoidedIsUnchanged(device.Exec(commands[0]), commands[1..], vlan);
    }
  }

  lemma {:induction false} RemovalAvoidsOthers(rebuild: seq<bool>, n: nat, station: nat)
    requires n <= |rebuild| == STATIONS && station < STATIONS && !rebuild[station]
    ensures Avoids(RemoveCommands(rebuild, n), Vlan(station))
  {
    if n > 0 { RemovalAvoidsOthers(rebuild, n - 1, station); }
  }

  lemma {:induction false} AdditionAvoidsOthers(teams: Lineup, rebuild: seq<bool>, dns: string, n: nat, station: nat)
    requires n <= |rebuild| == STATIONS && station < STATIONS && !(rebuild[station] && station < n)
    ensures Avoids(AddCommands(teams, rebuild, dns, n), Vlan(station))
  {
    if n > 0 { AdditionAvoidsOthers(teams, rebuild, dns, n - 1, station); }
  }

  /** The device at some instant while a batch is taking effect. */
  ghost predicate Passes(device: Device, commands: seq<Command>, outcome: Outcome, now: Device) {
    exists k: nat ::
      k <= |Prefix(commands, outcome)| &&
      now == device.(context := Global).ExecAll(Prefix(commands, outcome)[..k])
  }

  /** The device at some instant of an incremental call, or of the addition phase of any call. */
  ghost predicate DuringRemoval(driver: Driver, device: Device, teams: Lineup, o: Outcomes, now: Device)
    requires |driver.applied| == STATIONS
  {
    Passes(device, RemoveCommands(Rebuild(driver, TeamIds(teams)), STATIONS), o.removal, now)
  }

  ghost predicate DuringAddition(dns: string, driver: Driver, device: Device, teams: Lineup, o: Outcomes, now: Device)
    requires |driver.applied| == STATIONS
  {
    var rebuild := Rebuild(driver, TeamIds(teams));
    && o.removal == Done
    && Passes(Sent(device, RemoveCommands(rebuild, STATIONS), Done),
              AddCommands(teams, rebuild, dns, STATIONS), o.addition, now)
  }

  lemma PrefixAvoids(device: Device, commands: seq<Command>, outcome: Outcome, now: Device, vlan: int)
    requires Passes(device, commands, outcome, now) && Avoids(commands, vlan)
    ensures now.Held(vlan) == device.Held(vlan)
  {
    var k: nat :| k <= |Prefix(commands, outcome)| &&
      now == device.(context := Global).ExecAll(Prefix(commands, outcome)[..k]);
    AvoidedIsUnchanged(device.(context := Global), Prefix(commands, outcome)[..k], vlan);
  }

  /** A station whose team has not changed is named by no line of an incremental call, and its
      address and pool never so much as flicker. */
  lemma UnchangedStationUndisturbed(dns: string, driver: Driver, device: Device, teams: Lineup, o: Outcomes,
                                    now: Device, station: nat)
    requires |driver.applied| == STATIONS && station < STATIONS
    requires driver.synced && driver.applied[station] == TeamId(teams[station])
    requires DuringRemoval(driver, device, teams, o, now) || DuringAddition(dns, driver, device, teams, o, now)
    ensures Avoids(RemoveCommands(Rebuild(driver, TeamIds(teams)), STATIONS), Vlan(station))
    ensures Avoids(AddCommands(teams, Rebuild(driver, TeamIds(teams)), dns, STATIONS), Vlan(station))
    ensures now.Held(Vlan(station)) == device.Held(Vlan(station))
  {
    var rebuild := Rebuild(driver, TeamIds(teams));
    var remove := RemoveCommands(rebuild, STATIONS);
    RemovalAvoidsOthers(rebuild, STATIONS, station);
    AdditionAvoidsOthers(teams, rebuild, dns, STATIONS, station);
    if DuringRemoval(driver, device, teams, o, now) {
      PrefixAvoids(device, remove, o.removal, now, Vlan(station));
    } else {
      AvoidedIsUnchanged(device.(context := Global), remove, Vlan(station));
      PrefixAvoids(Sent(device, remove, Done), AddCommands(teams, rebuild, dns, STATIONS), o.addition, now,
                   Vlan(station));
    }
  }

  /** A station holds no subnet but its team's. */
  predicate HoldsOnly(station: Station, team: Option<Team>) {
    && (station.address.Some? ==> team.Some? && station.address.value.subnet == TeamSubnet(team.value))
    && (station.pool.Some? && station.pool.value.network.Some? ==>
          team.Some? && station.pool.value.network.value == TeamSubnet(team.value))
  }

  predicate Holds(station: Station, subnet: Subnet) {
    || (station.address.Some? && station.address.value.subnet == subnet)
    || (station.pool.Some? && station.pool.value.network == Some(subnet))
  }

  /** Two stations are never addressed on the same subnet. */
  ghost predicate NoOverlap(device: Device) {
    forall i: nat, j: nat, subnet | i < j < STATIONS && Holds(device.Held(Vlan(i)), subnet) ::
      !Holds(device.Held(Vlan(j)), subnet)
  }

  /** No team is in two stations; empty stations may repeat. */
  ghost predicate NoDuplicates(teams: Lineup) {
    forall i: nat, j: nat | i < j < STATIONS && teams[i].Some? :: teams[i] != teams[j]
  }

  lemma HoldsOnlyIsNoOverlap(device: Device, teams: Lineup)
    requires NoDuplicates(teams)
    requires forall i: nat :: i < STATIONS ==> HoldsOnly(device.Held(Vlan(i)), teams[i])
    ensures NoOverlap(device)
  {
    forall i: nat, j: nat, subnet | i < j < STATIONS && Holds(device.Held(Vlan(i)), subnet)
      ensures !Holds(device.Held(Vlan(j)), subnet)
    {
      if Holds(device.Held(Vlan(j)), subnet) {
        TeamSubnetInjective(teams[i].value, teams[j].value);
      }
    }
  }

  /** The subnet a line would give to the VLAN it is applied to. */
  function Gives(c: Command): Option<Subnet> {
    match c
    case IpAddress(address) => Some(address.subnet)
    case Network(subnet) => Some(subnet)
    case _ => None
  }

  ghost predicate GivesOnly(commands: seq<Command>, team: Option<Team>) {
    forall i :: 0 <= i < |commands| && Gives(commands[i]).Some? ==>
                  team.Some? && Gives(commands[i]).value == TeamSubnet(team.value)
  }

  lemma {:induction false} HoldsOnlyIsKept(device: Device, commands: seq<Command>, vlan: int, team: Option<Team>)
    requires HoldsOnly(device.Held(vlan), team) && GivesOnly(commands, team)
    ensures HoldsOnly(device.ExecAll(commands).Held(vlan), team)
    decreases |commands|
  {
    if commands != [] {
      HoldsOnlyIsKeptByOne(device, commands[0], vlan, team);
      HoldsOnlyIsKept(device.Exec(commands[0]), commands[1..], vlan, team);
    }
  }

  lemma HoldsOnlyIsKeptByOne(device: Device, c: Command, vlan: int, team: Option<Team>)
    requires HoldsOnly(device.Held(vlan), team)
    requires Gives(c).Some? ==> team.Some? && Gives(c).value == TeamSubnet(team.value)
    ensures HoldsOnly(device.Exec(c).Held(vlan), team)
  {
  }

  lemma {:induction false} RemovalGivesNothing(rebuild: seq<bool>, n: nat, team: Option<Team>)
    requires n <= |rebuild| == STATIONS
    ensures GivesOnly(RemoveCommands(rebuild, n), team)
  {
    if n > 0 { RemovalGivesNothing(rebuild, n - 1, team); }
  }

  /** The first line of an addition block leaves whatever context it finds; the rest name only their
      own VLAN. */
  lemma BlockStaysInItsVlan(device: Device, team: Option<Team>, vlan: int, dns: string, m: nat, other: int)
    requires 0 < m <= |AddStation(team, vlan, dns)| && other != vlan
    ensures device.ExecAll(AddStation(team, vlan, dns)[..m]).Held(other) == device.Held(other)
  {
    var part := AddStation(team, vlan, dns)[..m];
    AvoidedIsUnchanged(device.Exec(part[0]), part[1..], other);
  }

  ghost predicate InLineup(device: Device, teams: Lineup) {
    forall i: nat :: i < STATIONS ==> HoldsOnly(device.Held(Vlan(i)), teams[i])
  }

  /** One block, or part of it, of the addition. */
  lemma BlockStaysInLineup(before: Device, teams: Lineup, n: nat, dns: string, m: nat)
    requires n < STATIONS && 0 < m <= |AddStation(teams[n], Vlan(n), dns)| && InLineup(before, teams)
    ensures InLineup(before.ExecAll(AddStation(teams[n], Vlan(n), dns)[..m]), teams)
  {
    var part := AddStation(teams[n], Vlan(n), dns)[..m];
    forall i: nat | i < STATIONS ensures HoldsOnly(before.ExecAll(part).Held(Vlan(i)), teams[i]) {
      if i == n {
        HoldsOnlyIsKept(before, part, Vlan(i), teams[i]);
      } else {
        BlockStaysInItsVlan(before, teams[n], Vlan(n), dns, m, Vlan(i));
      }
    }
  }

  /** At every instant of the addition no station holds a subnet that is not its new team's. */
  lemma {:induction false} AdditionStaysInLineup(device: Device, teams: Lineup, rebuild: seq<bool>, dns: string,
                                                 n: nat, k: nat)
    requires n <= |rebuild| == STATIONS && device.context == Global
    requires k <= |AddCommands(teams, rebuild, dns, n)|
    requires InLineup(device, teams)
    ensures InLineup(device.ExecAll(AddCommands(teams, rebuild, dns, n)[..k]), teams)
  {
    if n > 0 {
      var earlier := AddCommands(teams, rebuild, dns, n - 1);
      var all := AddCommands(teams, rebuild, dns, n);
      if k <= |earlier| {
        assert all[..k] == earlier[..k];
        AdditionStaysInLineup(device, teams, rebuild, dns, n - 1, k);
      } else {
        var part := AddStation(teams[n - 1], Vlan(n - 1), dns)[..k - |earlier|];
        assert all[..k] == earlier + part;
        ExecAllAppend(device, earlier, part);
        AdditionStaysInLineup(device, teams, rebuild, dns, n - 1, |earlier|);
        assert earlier[..|earlier|] == earlier;
        BlockStaysInLineup(device.ExecAll(earlier), teams, n - 1, dns, k - |earlier|);
      }
    } else {
      assert AddCommands(teams, rebuild, dns, n)[..k] == [];
    }
  }

  /** Whatever the switch held before, from the moment a successful removal is done no two stations
      ever share a subnet while the new teams' networks go on. */
  lemma AdditionNeverOverlaps(dns: string, driver: Driver, device: Device, teams: Lineup, o: Outcomes, now: Device)
    requires Trustworthy(driver, device, dns) && NoDuplicates(teams)
    requires DuringAddition(dns, driver, device, teams, o, now)
    ensures NoOverlap(now)
  {
    var rebuild := Rebuild(driver, TeamIds(teams));
    var remove := RemoveCommands(rebuild, STATIONS);
    var add := AddCommands(teams, rebuild, dns, STATIONS);
    var cleared := Sent(device, remove, Done);
    RemovalClears(device.(context := Global), rebuild, STATIONS);
    UnchangedIsWanted(driver, device, teams, dns);
    forall i: nat | i < STATIONS ensures HoldsOnly(cleared.Held(Vlan(i)), teams[i]) {
      ContextIsNotHeld(device, Vlan(i));
      ContextIsNotHeld(device.(context := Global).ExecAll(remove), Vlan(i));
    }
    var sent := Prefix(add, o.addition);
    var k: nat :| k <= |sent| && now == cleared.(context := Global).ExecAll(sent[..k]);
    assert sent[..k] == add[..k];
    AdditionStaysInLineup(cleared, teams, rebuild, dns, STATIONS, k);
    HoldsOnlyIsNoOverlap(now, teams);
  }

  function Remembered(driver: Driver): (teams: Lineup)
    requires |driver.applied| == STATIONS
    ensures forall i :: 0 <= i < STATIONS ==> teams[i] == TeamOf(driver.applied[i])
  {
    seq(STATIONS, i requires 0 <= i < STATIONS => TeamOf(driver.applied[i]))
  }

  /** Nor do they during the removal, when the switch was in step with a lineup without duplicates:
      so a team that moves between stations is never on two of them at once. */
  lemma RemovalNeverOverlaps(dns: string, driver: Driver, device: Device, teams: Lineup, o: Outcomes, now: Device)
    requires Trustworthy(driver, device, dns) && driver.synced && NoDuplicates(Remembered(driver))
    requires DuringRemoval(driver, device, teams, o, now)
    ensures NoOverlap(now)
  {
    var remove := RemoveCommands(Rebuild(driver, TeamIds(teams)), STATIONS);
    var sent := Prefix(remove, o.removal);
    var k: nat :| k <= |sent| && now == device.(context := Global).ExecAll(sent[..k]);
    var held := Remembered(driver);
    forall i: nat | i < STATIONS ensures HoldsOnly(now.Held(Vlan(i)), held[i]) {
      RemovalGivesNothing(Rebuild(driver, TeamIds(teams)), STATIONS, held[i]);
      assert sent[..k] == remove[..k];
      ContextIsNotHeld(device, Vlan(i));
      HoldsOnlyIsKept(device.(context := Global), sent[..k], Vlan(i), held[i]);
    }
    HoldsOnlyIsNoOverlap(now, held);
  }

  // ------------------------------------------------------------------------------- the objects

  /** The switch at the far end of the Telnet session. */
  class Catalyst {
    var config: Device

    constructor (initial: Device)
      ensures config == initial
    {
      config := initial;
    }

    /** Sends a batch; `outcome` is what becomes of it. A read timeout counts as success. */
    method RunConfigCommand(commands: seq<Command>, outcome: Outcome) returns (ok: bool)
      modifies this
      ensures config == Sent(old(config), commands, outcome)
      ensures ok <==> outcome == Done
    {
      var n := if outcome.Failed? && outcome.applied < |commands| then outcome.applied else |commands|;
      config := config.(context := Global);
      ghost var entered := config;
      for i := 0 to n
        invariant config == entered.ExecAll(commands[..i])
      {
        assert commands[..i + 1] == commands[..i] + [commands[i]];
        ExecAllAppend(entered, commands[..i], [commands[i]]);
        ExecOne(config, commands[i]);
        config := config.Exec(commands[i]);
      }
      assert commands[..n] == Prefix(commands, outcome);
      config := config.(context := Global);
      return outcome == Done;
    }
  }

  class Switch {
    const configured: bool
    const dnsServer: string
    const device: Catalyst
    var applied: seq<int>
    var synced: bool
    var status: Status

    ghost function View(): Driver
      reads this
    {
      Driver(applied, synced, status)
    }

    constructor (configured: bool, dnsServer: string, device: Catalyst)
      ensures this.configured == configured && this.dnsServer == dnsServer && this.device == device
      ensures View() == NEW_DRIVER
    {
      this.configured := configured;
      this.dnsServer := dnsServer;
      this.device := device;
      applied, synced, status := [0, 0, 0, 0, 0, 0], false, Unknown;
    }

    /** Pushes the standing configuration and saves it. */
    method ApplyBaseline(baseline: Outcome, saved: bool) returns (ok: bool)
      modifies device
      ensures device.config == Sent(old(device.config), BaselineCommands(), baseline)
      ensures ok <==> baseline == Done && saved
    {
      ok := device.RunConfigCommand(BaselineCommands(), baseline);
      ok := ok && saved;
    }

    /** Reduces the teams to their numbers. */
    method CollectTeamIds(teams: Lineup) returns (ids: seq<int>)
      ensures ids == TeamIds(teams)
    {
      ids := [0, 0, 0, 0, 0, 0];
      for i := 0 to STATIONS
        invariant |ids| == STATIONS
        invariant forall j :: 0 <= j < STATIONS ==> ids[j] == if j < i then TeamId(teams[j]) else 0
      {
        if teams[i].Some? {
          ids := ids[i := teams[i].value];
        }
      }
    }

    method MarkFailed()
      modifies this
      ensures View() == old(View()).(synced := false, status := Failing)
    {
      synced := false;
      status := Failing;
    }

    method MarkRebuild(desired: seq<int>, full: bool) returns (rebuild: seq<bool>)
      requires |applied| == |desired| == STATIONS && full == !synced
      ensures rebuild == Rebuild(View(), desired)
    {
      rebuild := [];
      for i := 0 to STATIONS
        invariant |rebuild| == i
        invariant forall j :: 0 <= j < i ==> rebuild[j] == (full || desired[j] != applied[j])
      {
        rebuild := rebuild + [full || desired[i] != applied[i]];
      }
    }

    method RemovalLines(rebuild: seq<bool>) returns (lines: seq<Command>)
      requires |rebuild| == STATIONS
      ensures lines == RemoveCommands(rebuild, STATIONS)
    {
      lines := [];
      for i := 0 to STATIONS
        invariant lines == RemoveCommands(rebuild, i)
      {
        if rebuild[i] {
          lines := lines + RemoveStation(Vlan(i));
        } else {
          assert lines + [] == lines;
        }
      }
    }

    method AdditionLines(teams: Lineup, rebuild: seq<bool>) returns (lines: seq<Command>)
      requires |rebuild| == STATIONS
      ensures lines == AddCommands(teams, rebuild, dnsServer, STATIONS)
    {
      lines := [];
      for i := 0 to STATIONS
        invariant lines == AddCommands(teams, rebuild, dnsServer, i)
      {
        if rebuild[i] {
          lines := lines + AddStation(teams[i], Vlan(i), dnsServer);
        } else {
          assert lines + [] == lines;
        }
      }
    }

    /** The body of a call, step by step. */
    method Reconfigure(teams: Lineup, o: Outcomes) returns (ok: bool)
      requires |applied| == STATIONS
      modifies this, device
      ensures |applied| == STATIONS
      ensures Call(View(), device.config, ok) ==
              Configured(configured, dnsServer, old(View()), old(device.config), teams, o)
    {
      if !configured {
        status := Disabled;
        return true;
      }
      var desired := CollectTeamIds(teams);
      var full := !synced;
      if !full && desired == applied {
        status := Active;
        return true;
      }
      var rebuild := MarkRebuild(desired, full);
      status := Configuring;
      if full {
        var based := ApplyBaseline(o.baseline, o.saved);
        if !based {
          MarkFailed();
          return false;
        }
      }
      var removeTeamVlansCommand := RemovalLines(rebuild);
      var removed := device.RunConfigCommand(removeTeamVlansCommand, o.removal);
      if !removed {
        MarkFailed();
        return false;
      }
      var addTeamVlansCommand := AdditionLines(teams, rebuild);
      if |addTeamVlansCommand| > 0 {
        var added := device.RunConfigCommand(addTeamVlansCommand, o.addition);
        if !added {
          MarkFailed();
          return false;
        }
      }
      applied := desired;
      synced := true;
      status := Active;
      return true;
    }

    /** A call, and what comes of it for the field: if it succeeds the switch serves every team of the lineup. */
    method ConfigureTeamEthernet(teams: Lineup, o: Outcomes) returns (ok: bool)
      requires |applied| == STATIONS
      modifies this, device
      ensures |applied| == STATIONS
      ensures Call(View(), device.config, ok) ==
              Configured(configured, dnsServer, old(View()), old(device.config), teams, o)
      ensures !configured ==> ok && status == Disabled && device.config == old(device.config)
      ensures configured && Trustworthy(old(View()), old(device.config), dnsServer) ==>
                && Trustworthy(View(), device.config, dnsServer) && ok == synced
                && (ok ==> ServesAll(device.config, teams, dnsServer))
    {
      ghost var driver, before := View(), device.config;
      ok := Reconfigure(teams, o);
      if configured && Trustworthy(driver, before, dnsServer) {
        CallReconciles(dnsServer, driver, before, teams, o);
      }
    }
  }
}
