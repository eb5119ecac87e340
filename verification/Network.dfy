/** The tracker of the shown network interface: netlink messages select, update and drop it, and the state
    of the kernel is asked for in dumps, one at a time.
 */
module Network {
  import opened Wildcard
  import opened Wrappers

  /** Kernel interface indices are positive; -1 stands for "no interface". */
  type Index = i: int | i > 0 witness 1
  type Ifid = i: int | i == -1 || i > 0 witness -1

  /** What `inet_ntop` makes of an address is never empty. */
  type AddressText = s: string | s != "" witness "::"

  datatype Preference = IPv4 | IPv6 | Both

  datatype Config = Config(interface: Option<string>, pref: Preference)

  datatype Request = RouteDump | LinkDump | AddrDump | LinkInfo(index: Index)

  /** The fields that `clearIface` resets. */
  datatype Iface = Iface(ifid: Ifid, ifname: string, essid: string, bssid: string, ipaddr: string, ipaddr6: string,
                         gwaddr: string, carrier: bool, p2p: bool, cidr: nat, cidr6: nat, dbm: int, strength: nat,
                         strengthApp: string, linkSpeed: nat, frequency: real, rxBitrate: nat, txBitrate: nat)

  /** `sent` and `inFlight` are what the other end sees: all requests, and the dumps not yet finished. */
  datatype State = State(iface: Iface, wantRoute: bool, wantLink: bool, wantAddr: bool, dumping: bool, priority: nat,
                         sent: seq<Request>, inFlight: nat)

  datatype LinkMessage = LinkMessage(del: bool, index: Index, up: bool, p2p: bool, name: string, altnames: seq<string>,
                                     carrier: Option<bool>)

  datatype Family = Inet | Inet6 | OtherFamily

  datatype AddrAttribute = Address(text: AddressText) | Local(text: AddressText) | OtherAddr

  datatype AddrMessage = AddrMessage(del: bool, index: Index, linkScope: bool, family: Family, prefix: nat,
                                     attributes: seq<AddrAttribute>)

  datatype RouteAttribute =
    | Gateway(text: string)
    | Destination(zero: bool)
    | Oif(index: Index)
    | Priority(value: nat)
    | OtherRoute

  datatype RouteMessage = RouteMessage(del: bool, mainTable: bool, destinationLength: nat,
                                       attributes: seq<RouteAttribute>, sendFails: bool)

  /** The parts of a scan result that were present. */
  datatype Scan = Scan(essid: Option<string>, dbm: Option<int>, strength: Option<nat>, strengthApp: Option<string>,
                       frequency: Option<real>, bssid: Option<string>)

  datatype Event =
    | Link(link: LinkMessage)
    | Addr(addr: AddrMessage)
    | Route(route: RouteMessage)
    | Done
    | Overrun
    | ScanResult(scan: Scan)
    | Station(tx: Option<nat>, rx: Option<nat>)
    | Update(speed: nat)

  // --- dumps ------------------------------------------------------------------------------------------------

  /** Unless one is in progress, send the next wanted dump: routes, then links, then addresses. */
  function Ask(s: State): State {
    if s.dumping then s
    else if s.wantRoute then
      s.(wantRoute := false, dumping := true, sent := s.sent + [RouteDump], inFlight := s.inFlight + 1)
    else if s.wantLink then
      s.(wantLink := false, dumping := true, sent := s.sent + [LinkDump], inFlight := s.inFlight + 1)
    else if s.wantAddr then
      s.(wantAddr := false, dumping := true, sent := s.sent + [AddrDump], inFlight := s.inFlight + 1)
    else s
  }

  function Finish(s: State): State
    requires s.inFlight > 0
  {
    Ask(s.(dumping := false, inFlight := s.inFlight - 1))
  }

  function Resync(cfg: Config, s: State): State {
    Ask(s.(wantLink := true, wantAddr := true, wantRoute := s.wantRoute || cfg.interface.None?))
  }

  // --- links ------------------------------------------------------------------------------------------------

  const CLEARED := Iface(-1, "", "", "", "", "", "", false, false, 0, 0, 0, 0, "", 0, 0.0, 0, 0)

  ghost predicate Wanted(cfg: Config, link: LinkMessage) {
    cfg.interface.Some? && exists name :: name in [link.name] + link.altnames && Matches(cfg.interface.value, name)
  }

  /** Losing the carrier loses what was known of the wireless connection. */
  function WithCarrier(iface: Iface, carrier: bool): Iface {
    if iface.carrier && !carrier then
      iface.(carrier := false, essid := "", bssid := "", dbm := 0, strength := 0, strengthApp := "", frequency := 0.0)
    else iface.(carrier := carrier)
  }

  function Updated(iface: Iface, link: LinkMessage): Iface {
    var named := if iface.ifname == "" then iface.(ifname := link.name) else iface;
    if link.carrier.Some? then WithCarrier(named, link.carrier.value) else named
  }

  function Selected(iface: Iface, link: LinkMessage): Iface {
    iface.(ifname := link.name, ifid := link.index, p2p := iface.p2p || link.p2p,
           carrier := link.up && if link.carrier.Some? then link.carrier.value else iface.carrier)
  }

  ghost function OnLink(cfg: Config, s: State, link: LinkMessage): State {
    if s.iface.ifid != -1 && link.index != s.iface.ifid then s
    else if s.iface.ifid != -1 && !link.up && cfg.interface.None? then Ask(s.(iface := CLEARED, wantRoute := true))
    else if link.del then if s.iface.ifid != -1 then s.(iface := CLEARED) else s
    else if s.iface.ifid != -1 then s.(iface := Updated(s.iface, link))
    else if Wanted(cfg, link) then s.(iface := Selected(s.iface, link))
    else s
  }

  // --- addresses ----------------------------------------------------------------------------------------------

  predicate Usable(iface: Iface, attribute: AddrAttribute) {
    attribute.Local? || (attribute.Address? && !iface.p2p)
  }

  /** The message's family is asked for, and no address of it is known. */
  predicate HasPlace(pref: Preference, iface: Iface, family: Family) {
    || (family.Inet? && pref != IPv6 && iface.cidr == 0)
    || (family.Inet6? && pref != IPv4 && iface.cidr6 == 0)
  }

  function WithAddress(iface: Iface, family: Family, text: string, prefix: nat): Iface {
    match family
    case Inet => iface.(ipaddr := text, cidr := prefix)
    case Inet6 => iface.(ipaddr6 := text, cidr6 := prefix)
    case OtherFamily => iface
  }

  function OnAttribute(pref: Preference, iface: Iface, addr: AddrMessage, attribute: AddrAttribute): Iface {
    if !Usable(iface, attribute) then iface
    else if addr.del then WithAddress(iface, addr.family, "", 0)
    else if HasPlace(pref, iface, addr.family) then WithAddress(iface, addr.family, attribute.text, addr.prefix)
    else iface
  }

  function OnAttributes(pref: Preference, iface: Iface, addr: AddrMessage, i: nat): Iface
    requires i <= |addr.attributes|
  {
    if i == 0 then iface else OnAttribute(pref, OnAttributes(pref, iface, addr, i - 1), addr, addr.attributes[i - 1])
  }

  predicate Concerns(s: State, addr: AddrMessage) {
    addr.index == s.iface.ifid && !addr.linkScope
  }

  function OnAddr(cfg: Config, s: State, addr: AddrMessage): State {
    if Concerns(s, addr) then s.(iface := OnAttributes(cfg.pref, s.iface, addr, |addr.attributes|)) else s
  }

  // --- routes -------------------------------------------------------------------------------------------------

  /** What the attributes of a route say; the last of a kind counts. */
  datatype RouteInfo = RouteInfo(gateway: Option<string>, destination: bool, oif: Option<Index>, priority: nat)

  function RouteInfoTo(route: RouteMessage, i: nat): RouteInfo
    requires i <= |route.attributes|
  {
    if i == 0 then RouteInfo(None, false, None, 0)
    else
      var info := RouteInfoTo(route, i - 1);
      match route.attributes[i - 1]
      case Gateway(text) => info.(gateway := Some(text))
      case Destination(zero) => info.(destination := info.destination || !zero || route.destinationLength != 0)
      case Oif(index) => info.(oif := Some(index))
      case Priority(value) => info.(priority := value)
      case OtherRoute => info
  }

  function InfoOf(route: RouteMessage): RouteInfo {
    RouteInfoTo(route, |route.attributes|)
  }

  predicate IsDefault(route: RouteMessage) {
    route.mainTable && InfoOf(route).gateway.Some? && !InfoOf(route).destination && InfoOf(route).oif.Some?
  }

  predicate IsBetter(s: State, route: RouteMessage) {
    s.iface.ifid == -1 || InfoOf(route).priority < s.priority
  }

  /** Follow a default route: everything known of the old interface is dropped, the new one is asked about. */
  function Follow(s: State, oif: Index, gateway: string, priority: nat, sendFails: bool): State {
    Ask(s.(iface := CLEARED.(ifid := oif, gwaddr := gateway), priority := priority,
           sent := if sendFails then s.sent else s.sent + [LinkInfo(oif)],
           wantLink := s.wantLink || sendFails, wantAddr := true))
  }

  function OnRoute(s: State, route: RouteMessage): State {
    if !IsDefault(route) then s
    else
      var info := InfoOf(route);
      if !route.del && IsBetter(s, route) then
        Follow(s, info.oif.value, info.gateway.value, info.priority, route.sendFails)
      else if route.del && info.oif.value == s.iface.ifid && info.priority == s.priority then
        Ask(s.(iface := CLEARED, wantRoute := true))
      else s
  }

  // --- the machine ----------------------------------------------------------------------------------------------

  function Or<T>(given: Option<T>, otherwise: T): T {
    if given.Some? then given.value else otherwise
  }

  function OnScan(s: State, scan: Scan): State {
    var i := s.iface;
    s.(iface := i.(essid := Or(scan.essid, i.essid), dbm := Or(scan.dbm, i.dbm),
        strength := Or(scan.strength, i.strength),
                   strengthApp := Or(scan.strengthApp, i.strengthApp), frequency := Or(scan.frequency, i.frequency),
                   bssid := Or(scan.bssid, i.bssid)))
  }

  function OnStation(s: State, tx: Option<nat>, rx: Option<nat>): State {
    s.(iface := s.iface.(txBitrate := Or(tx, s.iface.txBitrate), rxBitrate := Or(rx, s.iface.rxBitrate)))
  }

  /** What can arrive. Scans and station data are asked for only with an interface, route changes are
      subscribed to only without a configured one, and a dump finishes only after it was sent. */
  predicate Enabled(cfg: Config, s: State, e: Event) {
    match e
    case Route(_) => cfg.interface.None?
    case Done => s.inFlight > 0
    case ScanResult(_) => s.iface.ifid > 0
    case Station(_, _) => s.iface.ifid > 0 && s.iface.bssid != ""
    case _ => true
  }

  ghost function Next(cfg: Config, s: State, e: Event): State
    requires Enabled(cfg, s, e)
  {
    match e
    case Link(link) => OnLink(cfg, s, link)
    case Addr(addr) => OnAddr(cfg, s, addr)
    case Route(route) => OnRoute(s, route)
    case Done => Finish(s)
    case Overrun => Resync(cfg, s)
    case ScanResult(scan) => OnScan(s, scan)
    case Station(tx, rx) => OnStation(s, tx, rx)
    case Update(speed) => s.(iface := s.iface.(linkSpeed := if s.iface.ifname == "" then 0 else speed))
  }

  /** The constructor: two fields of the header, and the priority, have no initial value. */
  function Start(cfg: Config, dbm: int, strength: nat, priority: nat): State {
    var guess := cfg.interface.None?;
    Ask(State(CLEARED.(dbm := dbm, strength := strength), guess, !guess, !guess, false, priority, [], 0))
  }

  ghost predicate IsRun(cfg: Config, run: seq<State>, events: seq<Event>) {
    && |run| == |events| + 1
    && (exists dbm: int, strength: nat, priority: nat :: run[0] == Start(cfg, dbm, strength, priority))
    && forall i :: 0 <= i < |events| ==> Enabled(cfg, run[i], events[i]) && run[i + 1] == Next(cfg, run[i], events[i])
  }

  // --- the class ------------------------------------------------------------------------------------------------

  class Network {
    const cfg: Config
    var iface: Iface
    var wantRoute: bool
    var wantLink: bool
    var wantAddr: bool
    var dumping: bool
    var routePriority: nat
    ghost var sent: seq<Request>
    ghost var inFlight: nat

    ghost function View(): State
      reads this
    {
      State(iface, wantRoute, wantLink, wantAddr, dumping, routePriority, sent, inFlight)
    }

    /** `dbm`, `strength` and `priority` are what happens to be in the memory. */
    constructor (cfg: Config, dbm: int, strength: nat, priority: nat)
      ensures this.cfg == cfg && View() == Start(cfg, dbm, strength, priority)
    {
      this.cfg := cfg;
      iface := CLEARED.(dbm := dbm, strength := strength);
      routePriority := priority;
      wantRoute, wantLink, wantAddr, dumping := false, false, false, false;
      sent, inFlight := [], 0;
      new;
      if cfg.interface.None? {
        wantRoute := true;
      } else {
        wantLink := true;
        wantAddr := true;
      }
      AskForStateDump();
    }

    ghost method Send(request: Request)
      modifies `sent
      ensures sent == old(sent) + [request]
    {
      sent := sent + [request];
    }

    method AskForStateDump()
      modifies `wantRoute, `wantLink, `wantAddr, `dumping, `sent, `inFlight
      ensures View() == Ask(old(View()))
    {
      if dumping {
        return;
      }
      if wantRoute {
        Send(RouteDump);
        wantRoute := false;
        dumping := true;
      } else if wantLink {
        Send(LinkDump);
        wantLink := false;
        dumping := true;
      } else if wantAddr {
        Send(AddrDump);
        wantAddr := false;
        dumping := true;
      }
      if dumping {
        inFlight := inFlight + 1;
      }
    }

    method HandleEventsDone()
      requires inFlight > 0
      modifies this
      ensures View() == Finish(old(View()))
    {
      inFlight := inFlight - 1;
      dumping := false;
      AskForStateDump();
    }

    /** The receive buffer overflowed and messages were lost. */
    method HandleOverrun()
      modifies this
      ensures View() == Resync(cfg, old(View()))
    {
      wantLink := true;
      wantAddr := true;
      if cfg.interface.None? {
        wantRoute := true;
      }
      AskForStateDump();
    }

    method ClearIface()
      modifies `iface
      ensures iface == CLEARED
    {
      iface := iface.(ifid := -1, ifname := "", essid := "", bssid := "", ipaddr := "", ipaddr6 := "", gwaddr := "");
      iface := iface.(carrier := false, p2p := false, cidr := 0, cidr6 := 0, dbm := 0, strength := 0,
          strengthApp := "");
      iface := iface.(linkSpeed := 0, frequency := 0.0, rxBitrate := 0, txBitrate := 0);
    }

    method HandleLink(link: LinkMessage)
      modifies this
      ensures View() == OnLink(cfg, old(View()), link)
    {
      hide Ask;
      if iface.ifid != -1 && link.index != iface.ifid {
        return;
      }
      if iface.ifid != -1 && !link.up && cfg.interface.None? {
        ClearIface();
        wantRoute := true;
        AskForStateDump();
        return;
      }
      if !link.del && link.index == iface.ifid {
        UpdateLink(link);
      } else if !link.del && iface.ifid == -1 {
        var found, matched := MatchInterface(cfg.interface, link.name, link.altnames, "");
        if found {
          SelectLink(link);
        }
      } else if link.del && iface.ifid >= 0 {
        ClearIface();
      }
    }

    method UpdateLink(link: LinkMessage)
      modifies `iface
      ensures iface == Updated(old(iface), link)
    {
      if iface.ifname == "" && link.name != "" {
        iface := iface.(ifname := link.name);
      }
      if link.carrier.Some? {
        UpdateCarrier(link.carrier.value);
      }
    }

    method UpdateCarrier(carrier: bool)
      modifies `iface
      ensures iface == WithCarrier(old(iface), carrier)
    {
      if iface.carrier != carrier && !carrier {
        iface := iface.(essid := "", bssid := "", dbm := 0, strength := 0, strengthApp := "", frequency := 0.0);
      }
      iface := iface.(carrier := carrier);
    }

    method SelectLink(link: LinkMessage)
      modifies `iface
      ensures iface == Selected(old(iface), link)
    {
      iface := iface.(ifname := link.name, ifid := link.index);
      if link.p2p {
        iface := iface.(p2p := true);
      }
      var up := link.carrier;
      if !link.up {
        up := Some(false);
      }
      if up.Some? {
        iface := iface.(carrier := up.value);
      }
    }

    method HandleAddr(addr: AddrMessage)
      modifies `iface
      ensures View() == OnAddr(cfg, old(View()), addr)
    {
      if addr.index != iface.ifid || addr.linkScope {
        return;
      }
      for i := 0 to |addr.attributes|
        invariant iface == OnAttributes(cfg.pref, old(iface), addr, i)
      {
        match addr.attributes[i]
        case Address(text) =>
          if !iface.p2p {
            HandleAddress(addr, text);
          }
        case Local(text) => HandleAddress(addr, text);
        case OtherAddr =>
      }
    }

    method HandleAddress(addr: AddrMessage, text: AddressText)
      modifies `iface
      ensures iface == OnAttribute(cfg.pref, old(iface), addr, Local(text))
    {
      if !addr.del {
        if (cfg.pref == IPv4 || cfg.pref == Both) && iface.cidr == 0 && addr.family == Inet {
          iface := iface.(ipaddr := text, cidr := addr.prefix);
        } else if (cfg.pref == IPv6 || cfg.pref == Both) && iface.cidr6 == 0 && addr.family == Inet6 {
          iface := iface.(ipaddr6 := text, cidr6 := addr.prefix);
        }
      } else if addr.family == Inet {
        iface := iface.(ipaddr := "", cidr := 0);
      } else if addr.family == Inet6 {
        iface := iface.(ipaddr6 := "", cidr6 := 0);
      }
    }

    method HandleScan(scan: Scan)
      modifies `iface
      ensures View() == OnScan(old(View()), scan)
    {
      if scan.essid.Some? {
        iface := iface.(essid := scan.essid.value);
      }
      ParseSignal(scan);
      if scan.frequency.Some? {
        iface := iface.(frequency := scan.frequency.value);
      }
      if scan.bssid.Some? {
        iface := iface.(bssid := scan.bssid.value);
      }
    }

    method ParseSignal(scan: Scan)
      modifies `iface
      ensures iface == old(iface).(dbm := Or(scan.dbm, old(iface).dbm),
                                   strength := Or(scan.strength, old(iface).strength),
                                   strengthApp := Or(scan.strengthApp, old(iface).strengthApp))
    {
      if scan.dbm.Some? {
        iface := iface.(dbm := scan.dbm.value);
      }
      if scan.strengthApp.Some? {
        iface := iface.(strengthApp := scan.strengthApp.value);
      }
      if scan.strength.Some? {
        iface := iface.(strength := scan.strength.value);
      }
    }

    method HandleStationGet(tx: Option<nat>, rx: Option<nat>)
      modifies `iface
      ensures View() == OnStation(old(View()), tx, rx)
    {
      if tx.Some? {
        iface := iface.(txBitrate := tx.value);
      }
      if rx.Some? {
        iface := iface.(rxBitrate := rx.value);
      }
    }

    /** The display is refreshed; `speed` is what sysfs says of a named interface. */
    method UpdateSpeed(speed: nat)
      modifies `iface
      ensures View() == Next(cfg, old(View()), Update(speed))
    {
      iface := iface.(linkSpeed := if iface.ifname == "" then 0 else speed);
    }

    method HandleRoute(route: RouteMessage)
      modifies this
      ensures View() == OnRoute(old(View()), route)
    {
      hide Ask;
      if !route.mainTable {
        return;
      }
      var gateway, destination, oif, priority := ParseRoute(route);
      if gateway.Some? && !destination && oif != -1 {
        if !route.del && (iface.ifid == -1 || priority < routePriority) {
          ClearIface();
          iface := iface.(ifid := oif);
          routePriority := priority;
          iface := iface.(gwaddr := gateway.value);
          if route.sendFails {
            wantLink := true;
          } else {
            Send(LinkInfo(oif));
          }
          wantAddr := true;
          AskForStateDump();
        } else if route.del && oif == iface.ifid && routePriority == priority {
          ClearIface();
          wantRoute := true;
          AskForStateDump();
        }
      }
    }

    static method ParseRoute(route: RouteMessage)
      returns (gateway: Option<string>, destination: bool, oif: Ifid, priority: nat)
      ensures InfoOf(route) == RouteInfo(gateway, destination, if oif == -1 then None else Some(oif), priority)
    {
      gateway, destination, oif, priority := None, false, -1, 0;
      for i := 0 to |route.attributes|
        invariant RouteInfoTo(route, i)
               == RouteInfo(gateway, destination, if oif == -1 then None else Some(oif), priority)
      {
        match route.attributes[i]
        case Gateway(text) => gateway := Some(text);
        case Destination(zero) =>
          if !zero {
            destination := true;
          }
          if route.destinationLength != 0 {
            destination := true;
          }
        case Oif(index) => oif := index;
        case Priority(value) => priority := value;
        case OtherRoute =>
      }
    }
  }

  // --- one dump at a time -----------------------------------------------------------------------------------------

  ghost predicate Orderly(cfg: Config, s: State) {
    && (s.wantRoute || s.wantLink || s.wantAddr ==> s.dumping)
    && s.inFlight == (if s.dumping then 1 else 0)
    && (cfg.interface.Some? ==> !s.wantRoute)
  }

  lemma StepKeepsOrder(cfg: Config, s: State, e: Event)
    requires Orderly(cfg, s) && Enabled(cfg, s, e)
    ensures Orderly(cfg, Next(cfg, s, e))
  {
    hide CLEARED, Updated, Selected, OnAttributes, InfoOf, Wanted;
  }

  /** In every run: a wanted dump implies one in progress, of which there is at most one. */
  lemma {:induction false} RunKeepsOrder(cfg: Config, run: seq<State>, events: seq<Event>, k: nat)
    requires IsRun(cfg, run, events) && k <= |events|
    ensures Orderly(cfg, run[k])
  {
    if k == 0 {
    } else {
      RunKeepsOrder(cfg, run, events, k - 1);
      assert run[k - 1 + 1] == Next(cfg, run[k - 1], events[k - 1]);
      StepKeepsOrder(cfg, run[k - 1], events[k - 1]);
    }
  }

  predicate IsDump(r: Request) {
    !r.LinkInfo?
  }

  /** A dump is sent only when none is in flight, last in its step, and only once nothing more urgent is
      wanted; a tracker with a configured interface never asks for routes. */
  lemma StepSends(cfg: Config, s: State, e: Event, i: nat)
    requires Orderly(cfg, s) && Enabled(cfg, s, e)
    requires |s.sent| <= i < |Next(cfg, s, e).sent|
    ensures var t := Next(cfg, s, e);
      && s.sent <= t.sent
      && (IsDump(t.sent[i]) ==>
        && i == |t.sent| - 1 && (!s.dumping || e.Done?) && t.dumping
        && (t.sent[i] == RouteDump ==> cfg.interface.None?)
        && (t.sent[i] == LinkDump ==> !t.wantRoute)
        && (t.sent[i] == AddrDump ==> !t.wantRoute && !t.wantLink))
  {
    hide CLEARED, Updated, Selected, OnAttributes, InfoOf, Wanted;
  }

  function Pending(s: State): nat {
    (if s.wantRoute then 1 else 0) + (if s.wantLink then 1 else 0) + (if s.wantAddr then 1 else 0) + s.inFlight
  }

  function Outstanding(s: State): seq<Request> {
    (if s.wantRoute then [RouteDump] else []) + (if s.wantLink then [LinkDump] else [])
    + (if s.wantAddr then [AddrDump] else [])
  }

  /** Each finished dump brings the tracker one step nearer to quiescence, and sends the next wanted one. */
  lemma FinishLowersPending(s: State)
    requires s.inFlight > 0 && s.inFlight == (if s.dumping then 1 else 0)
    ensures Pending(Finish(s)) == Pending(s) - 1
    ensures Finish(s).sent + Outstanding(Finish(s)) == s.sent + Outstanding(s)
  {
    AskSendsTheFirst(s.(dumping := false, inFlight := s.inFlight - 1));
  }

  lemma AskSendsTheFirst(s: State)
    ensures Ask(s).sent + Outstanding(Ask(s)) == s.sent + Outstanding(s)
  {
  }

  predicate SameDumps(s: State, t: State) {
    && s.wantRoute == t.wantRoute && s.wantLink == t.wantLink && s.wantAddr == t.wantAddr
    && s.dumping == t.dumping && s.sent == t.sent && s.inFlight == t.inFlight
  }

  /** A step that requests nothing new: the end of a dump, or a message that leaves the dumps alone. */
  ghost predicate Calm(cfg: Config, s: State, e: Event)
    requires Enabled(cfg, s, e)
  {
    e.Done? || SameDumps(s, Next(cfg, s, e))
  }

  /** What a dump delivers is calm, unless a link or route message loses the interface or finds a better one. */
  lemma MessagesAreCalm(cfg: Config, s: State, e: Event)
    requires Enabled(cfg, s, e) && !e.Overrun?
    requires e.Link? && cfg.interface.None? && s.iface.ifid == e.link.index ==> e.link.up
    requires e.Route? && IsDefault(e.route) ==>
      if e.route.del then InfoOf(e.route).oif != Some(s.iface.ifid) || InfoOf(e.route).priority != s.priority
      else !IsBetter(s, e.route)
    ensures Calm(cfg, s, e)
  {
    hide InfoOf, Wanted, OnAttributes, Updated, Selected;
  }

  /** The dumps that finish between `i` and `j`. */
  ghost function Dones(events: seq<Event>, i: nat, j: nat): nat
    requires i <= j <= |events|
    decreases j
  {
    if i == j then 0 else Dones(events, i, j - 1) + if events[j - 1].Done? then 1 else 0
  }

  ghost predicate CalmStretch(cfg: Config, run: seq<State>, events: seq<Event>, i: nat, j: nat)
    requires IsRun(cfg, run, events)
  {
    i <= j <= |events| && forall k :: i <= k < j ==> Calm(cfg, run[k], events[k])
  }

  /** In every run, as long as nothing new is requested, whatever messages come in between: each finished dump lowers
      what is pending by one, and what has been sent and what is wanted make up the same list, in order of urgency. */
  lemma {:induction false} CalmKeepsRequests(cfg: Config, run: seq<State>, events: seq<Event>, i: nat, j: nat)
    requires IsRun(cfg, run, events) && CalmStretch(cfg, run, events, i, j)
    ensures run[j].sent + Outstanding(run[j]) == run[i].sent + Outstanding(run[i])
    ensures Pending(run[j]) + Dones(events, i, j) == Pending(run[i])
    decreases j
  {
    hide Next, Outstanding, Pending, Enabled;
    if i == j {
    } else {
      CalmKeepsRequests(cfg, run, events, i, j - 1);
      RunKeepsOrder(cfg, run, events, j - 1);
      assert run[j - 1 + 1] == Next(cfg, run[j - 1], events[j - 1]) && Enabled(cfg, run[j - 1], events[j - 1]);
      CalmStep(cfg, run[j - 1], events[j - 1]);
    }
  }

  lemma CalmStep(cfg: Config, s: State, e: Event)
    requires Orderly(cfg, s) && Enabled(cfg, s, e) && Calm(cfg, s, e)
    ensures var t := Next(cfg, s, e);
      && t.sent + Outstanding(t) == s.sent + Outstanding(s)
      && Pending(t) + (if e.Done? then 1 else 0) == Pending(s)
  {
    if e.Done? {
      FinishLowersPending(s);
    }
    hide OnLink, OnAddr, OnRoute, Finish, Resync, OnScan;
  }

  /** In every run, once as many dumps have finished as were pending, and nothing new was requested meanwhile, exactly
      the wanted dumps have been sent, in order of urgency, and there is silence; before that one is in flight. */
  lemma EveryDumpIsSent(cfg: Config, run: seq<State>, events: seq<Event>, i: nat, j: nat)
    requires IsRun(cfg, run, events) && CalmStretch(cfg, run, events, i, j)
    ensures Dones(events, i, j) <= Pending(run[i])
    ensures if Dones(events, i, j) == Pending(run[i]) then
        run[j].sent == run[i].sent + Outstanding(run[i]) && Outstanding(run[j]) == [] && run[j].inFlight == 0
      else run[j].inFlight == 1 && Enabled(cfg, run[j], Done)
  {
    CalmKeepsRequests(cfg, run, events, i, j);
    RunKeepsOrder(cfg, run, events, j);
    assert run[j].sent + [] == run[j].sent;
    hide IsRun, CalmStretch, Dones;
  }

  /** In every run the tracker first asks for the routes, to find an interface, or for the links and then the addresses,
      to find the configured one. */
  lemma StartAsks(cfg: Config, run: seq<State>, events: seq<Event>, j: nat)
    requires IsRun(cfg, run, events) && j <= |events| && CalmStretch(cfg, run, events, 0, j)
    ensures run[j].sent + Outstanding(run[j]) == if cfg.interface.None? then [RouteDump] else [LinkDump, AddrDump]
    ensures |run[0].sent| == 1 && run[0].inFlight == 1
  {
    CalmKeepsRequests(cfg, run, events, 0, j);
    hide CalmStretch, Outstanding;
    assert run[0].sent + Outstanding(run[0]) == if cfg.interface.None? then [RouteDump] else [LinkDump, AddrDump] by {
      FirstRequests(cfg, run[0].iface.dbm, run[0].iface.strength, run[0].priority);
    }
  }

  lemma FirstRequests(cfg: Config, dbm: int, strength: nat, priority: nat)
    ensures var s := Start(cfg, dbm, strength, priority);
      s.sent + Outstanding(s) == if cfg.interface.None? then [RouteDump] else [LinkDump, AddrDump]
  {
  }

  /** In every run, after an overrun everything is asked for anew, also when a dump was in progress. */
  lemma OverrunAsksForEverything(cfg: Config, run: seq<State>, events: seq<Event>, i: nat, j: nat)
    requires IsRun(cfg, run, events) && i < j && j <= |events| && events[i].Overrun?
    requires CalmStretch(cfg, run, events, i + 1, j)
    ensures run[j].sent + Outstanding(run[j])
         == run[i].sent + (if cfg.interface.None? then [RouteDump] else []) + [LinkDump, AddrDump]
    ensures Dones(events, i + 1, j) == Pending(run[i + 1]) ==> Outstanding(run[j]) == []
  {
    RunKeepsOrder(cfg, run, events, i);
    assert run[i + 1] == Next(cfg, run[i], events[i]);
    AskSendsTheFirst(run[i].(wantLink := true, wantAddr := true, wantRoute := run[i].wantRoute || cfg.interface.None?));
    CalmKeepsRequests(cfg, run, events, i + 1, j);
    EveryDumpIsSent(cfg, run, events, i + 1, j);
    hide IsRun, CalmStretch, Dones, Ask;
  }

  lemma FollowRequests(s: State, oif: Index, gateway: string, priority: nat, sendFails: bool)
    ensures var t := Follow(s, oif, gateway, priority, sendFails);
      t.sent + Outstanding(t)
      == s.sent + (if sendFails then [] else [LinkInfo(oif)]) + (if s.wantRoute then [RouteDump] else [])
         + (if sendFails || s.wantLink then [LinkDump] else []) + [AddrDump]
  {
    AskSendsTheFirst(s.(iface := CLEARED.(ifid := oif, gwaddr := gateway), priority := priority,
                        sent := if sendFails then s.sent else s.sent + [LinkInfo(oif)],
                        wantLink := s.wantLink || sendFails, wantAddr := true));
    hide Ask, CLEARED;
  }

  /** In every run, a newly followed interface has its addresses dumped later, after its link was asked for. */
  lemma FollowedInterfaceIsAskedAbout(cfg: Config, run: seq<State>, events: seq<Event>, i: nat, j: nat)
    requires IsRun(cfg, run, events) && i < j && j <= |events| && CalmStretch(cfg, run, events, i + 1, j)
    requires events[i].Route? && !events[i].route.del && IsDefault(events[i].route) && IsBetter(run[i], events[i].route)
    ensures var route := events[i].route;
      run[j].sent + Outstanding(run[j])
      == run[i].sent + (if route.sendFails then [] else [LinkInfo(InfoOf(route).oif.value)])
         + (if run[i].wantRoute then [RouteDump] else [])
         + (if route.sendFails || run[i].wantLink then [LinkDump] else []) + [AddrDump]
    ensures Dones(events, i + 1, j) == Pending(run[i + 1]) ==> Outstanding(run[j]) == []
  {
    hide InfoOf, Follow, CalmStretch, Dones, Pending, Outstanding;
    var route := events[i].route;
    var info := InfoOf(route);
    assert run[i + 1] == Next(cfg, run[i], events[i]);
    FollowRequests(run[i], info.oif.value, info.gateway.value, info.priority, route.sendFails);
    CalmKeepsRequests(cfg, run, events, i + 1, j);
    EveryDumpIsSent(cfg, run, events, i + 1, j);
  }

  /** The interface that was followed has lost its default route, or, unless configured, went down. */
  ghost predicate LosesRoute(cfg: Config, s: State, e: Event) {
    s.iface.ifid != -1 && match e
      case Route(route) =>
        route.del && IsDefault(route) && InfoOf(route).oif == Some(s.iface.ifid) && InfoOf(route).priority == s.priority
      case Link(link) => cfg.interface.None? && link.index == s.iface.ifid && !link.up
      case _ => false
  }

  /** In every run, after that another route is looked for: the routes are dumped, before what else was wanted. */
  lemma LostRouteIsLookedFor(cfg: Config, run: seq<State>, events: seq<Event>, i: nat, j: nat)
    requires IsRun(cfg, run, events) && i < j && j <= |events| && CalmStretch(cfg, run, events, i + 1, j)
    requires LosesRoute(cfg, run[i], events[i])
    ensures run[i + 1].iface.ifid == -1
    ensures run[j].sent + Outstanding(run[j])
         == run[i].sent + [RouteDump] + (if run[i].wantLink then [LinkDump] else [])
            + (if run[i].wantAddr then [AddrDump] else [])
    ensures Dones(events, i + 1, j) == Pending(run[i + 1]) ==> Outstanding(run[j]) == []
  {
    hide InfoOf;
    assert run[i + 1] == Next(cfg, run[i], events[i]);
    AskSendsTheFirst(run[i].(iface := CLEARED, wantRoute := true));
    CalmKeepsRequests(cfg, run, events, i + 1, j);
    EveryDumpIsSent(cfg, run, events, i + 1, j);
    hide IsRun, CalmStretch, Dones, Ask;
  }

  // --- no interface, no data ----------------------------------------------------------------------------------------

  lemma OtherAddressesAreIgnored(cfg: Config, s: State, e: Event)
    requires s.iface.ifid == -1 && s.iface.linkSpeed == 0 && s.iface.ifname == "" && Enabled(cfg, s, e)
    ensures Next(cfg, s, e).iface.ifid == -1 ==> Next(cfg, s, e).iface == s.iface
  {
    hide InfoOf, Wanted, OnAttributes, Updated;
  }

  /** The two differ in their addresses only. */
  ghost predicate SameButAddresses(i: Iface, t: Iface) {
    t == i.(ipaddr := t.ipaddr, cidr := t.cidr, ipaddr6 := t.ipaddr6, cidr6 := t.cidr6)
  }

  lemma AttributeKeepsTheRest(pref: Preference, iface: Iface, addr: AddrMessage, attribute: AddrAttribute)
    ensures SameButAddresses(iface, OnAttribute(pref, iface, addr, attribute))
  {
  }

  lemma {:induction false} AttributesKeepTheRest(pref: Preference, iface: Iface, addr: AddrMessage, i: nat)
    requires i <= |addr.attributes|
    ensures SameButAddresses(iface, OnAttributes(pref, iface, addr, i))
  {
    if i == 0 {
    } else {
      AttributesKeepTheRest(pref, iface, addr, i - 1);
      AttributeKeepsTheRest(pref, OnAttributes(pref, iface, addr, i - 1), addr, addr.attributes[i - 1]);
      hide OnAttribute;
    }
  }

  lemma DroppedIsCleared(cfg: Config, s: State, e: Event)
    requires s.iface.ifid != -1 && Enabled(cfg, s, e)
    ensures Next(cfg, s, e).iface.ifid == -1 ==> Next(cfg, s, e).iface == CLEARED
  {
    hide InfoOf, Wanted, OnAttributes;
    if e.Addr? {
      AttributesKeepTheRest(cfg.pref, s.iface, e.addr, |e.addr.attributes|);
    }
  }

  ghost predicate EverSelected(run: seq<State>, k: nat)
    requires k < |run|
  {
    exists j :: 0 <= j <= k && run[j].iface.ifid != -1
  }

  /** In every run, without an interface there is nothing of one: all that `clearIface` clears is clear, but for
      the two fields without an initial value, which keep it until the first interface is gone. */
  lemma {:induction false} NoInterfaceNoData(cfg: Config, run: seq<State>, events: seq<Event>, k: nat)
    requires IsRun(cfg, run, events) && k <= |events|
    ensures run[k].iface.ifid == -1 ==> run[k].iface == if EverSelected(run, k) then CLEARED else run[0].iface
    ensures run[0].iface == CLEARED.(dbm := run[0].iface.dbm, strength := run[0].iface.strength)
  {
    if k == 0 {
    } else {
      NoInterfaceNoData(cfg, run, events, k - 1);
      var s, e := run[k - 1], events[k - 1];
      assert run[k - 1 + 1] == Next(cfg, s, e);
      assert EverSelected(run, k - 1) ==> EverSelected(run, k);
      if s.iface.ifid == -1 {
        assert EverSelected(run, k) && !EverSelected(run, k - 1) ==> run[k].iface.ifid != -1;
        OtherAddressesAreIgnored(cfg, s, e);
      } else {
        assert EverSelected(run, k);
        DroppedIsCleared(cfg, s, e);
      }
    }
  }

  /** What is known of the interface itself, apart from its name and carrier. */
  ghost predicate Blank(iface: Iface) {
    && iface.ipaddr == "" && iface.ipaddr6 == "" && iface.cidr == 0 && iface.cidr6 == 0
    && iface.essid == "" && iface.bssid == "" && iface.strengthApp == "" && iface.frequency == 0.0
    && iface.rxBitrate == 0 && iface.txBitrate == 0
  }

  lemma TakenUpBlank(cfg: Config, s: State, e: Event)
    requires Enabled(cfg, s, e) && (s.iface.ifid == -1 ==> Blank(s.iface))
    ensures Next(cfg, s, e).iface.ifid !in {-1, s.iface.ifid} ==> Blank(Next(cfg, s, e).iface)
  {
    hide InfoOf, Wanted, OnAttributes;
    if e.Addr? {
      AttributesKeepTheRest(cfg.pref, s.iface, e.addr, |e.addr.attributes|);
    }
  }

  /** In every run, an interface that is taken up, whether after none or after another one, starts without
      addresses and wireless data: nothing of another interface is ever shown under its name. */
  lemma NothingStale(cfg: Config, run: seq<State>, events: seq<Event>, k: nat)
    requires IsRun(cfg, run, events) && k < |events|
    ensures run[k + 1].iface.ifid !in {-1, run[k].iface.ifid} ==> Blank(run[k + 1].iface)
  {
    NoInterfaceNoData(cfg, run, events, k);
    TakenUpBlank(cfg, run[k], events[k]);
  }

  /** The addresses are those of `i`, and of the wireless data nothing is left. */
  ghost predicate OnlyAddressesLeft(i: Iface, t: Iface) {
    && t.essid == "" && t.bssid == "" && t.dbm == 0 && t.strength == 0 && t.strengthApp == "" && t.frequency == 0.0
    && t.ipaddr == i.ipaddr && t.ipaddr6 == i.ipaddr6 && t.cidr == i.cidr && t.cidr6 == i.cidr6
  }

  lemma LinkTakesCarrier(iface: Iface, link: LinkMessage)
    requires iface.carrier
    ensures !Updated(iface, link).carrier ==> OnlyAddressesLeft(iface, Updated(iface, link))
  {
  }

  /** An interface that loses its carrier loses its wireless data and keeps its addresses. */
  lemma CarrierLossForgetsWireless(cfg: Config, s: State, e: Event)
    requires Enabled(cfg, s, e) && s.iface.ifid != -1 && s.iface.carrier
    ensures var t := Next(cfg, s, e).iface;
      t.ifid == s.iface.ifid && !t.carrier && !e.Route? ==> OnlyAddressesLeft(s.iface, t)
  {
    hide InfoOf, Wanted, OnAttributes, OnlyAddressesLeft, Updated;
    if e.Link? {
      LinkTakesCarrier(s.iface, e.link);
    } else if e.Addr? {
      AttributesKeepTheRest(cfg.pref, s.iface, e.addr, |e.addr.attributes|);
    }
  }

  // --- what a link says --------------------------------------------------------------------------------------

  /** In every run an interface selected by its link is shown as it was announced: its own name, even if another name
      of it matched, and with a carrier only if it is up and said to have one. */
  lemma SelectedAsAnnounced(cfg: Config, run: seq<State>, events: seq<Event>, k: nat)
    requires IsRun(cfg, run, events) && k < |events| && events[k].Link? && run[k].iface.ifid == -1
    requires run[k + 1].iface.ifid != -1
    ensures var link, t := events[k].link, run[k + 1].iface;
      && t.ifid == link.index && t.ifname == link.name && t.p2p == link.p2p
      && (t.carrier <==> link.up && link.carrier == Some(true))
      && Blank(t)
  {
    NoInterfaceNoData(cfg, run, events, k);
    assert run[k + 1] == Next(cfg, run[k], events[k]);
    hide IsRun, EverSelected;
  }

  /** News of the selected interface: the carrier is as said, the name is learnt if it was not known, and all else is
      kept unless the carrier is lost. */
  lemma SelectedLinkIsUpdated(cfg: Config, s: State, link: LinkMessage)
    requires s.iface.ifid == link.index && !link.del && (link.up || cfg.interface.Some?)
    ensures var i, t := s.iface, OnLink(cfg, s, link).iface;
      && t.ifid == i.ifid
      && t.ifname == (if i.ifname != "" then i.ifname else link.name)
      && t.carrier == (if link.carrier == None then i.carrier else link.carrier.value)
      && (i.carrier && !t.carrier ==> OnlyAddressesLeft(i, t))
      && (t.carrier || !i.carrier ==> t == i.(ifname := t.ifname, carrier := t.carrier))
      && OnLink(cfg, s, link) == s.(iface := t)
  {
    hide Wanted, Ask;
  }

  // --- which interface ---------------------------------------------------------------------------------------

  /** An interface is taken up only when a new link answers the configured name, or a new default route leads
      out of it; it is exchanged for another only by a default route of smaller metric; and it is given up
      exactly when its link is deleted, or, unless it is the configured one, goes down or loses its route. */
  lemma SelectionChanges(cfg: Config, s: State, e: Event)
    requires Enabled(cfg, s, e)
    ensures var t := Next(cfg, s, e);
      && (s.iface.ifid == -1 ==>
            (t.iface.ifid != -1 <==>
               || (e.Link? && !e.link.del && Wanted(cfg, e.link))
               || (e.Route? && !e.route.del && IsDefault(e.route))))
      && (s.iface.ifid != -1 && t.iface.ifid !in {-1, s.iface.ifid} ==>
            e.Route? && !e.route.del && IsDefault(e.route) && InfoOf(e.route).priority < s.priority)
      && (s.iface.ifid != -1 ==>
            (t.iface.ifid == -1 <==>
               || (e.Link? && e.link.index == s.iface.ifid && (e.link.del || (!e.link.up && cfg.interface.None?)))
               || (e.Route? && e.route.del && IsDefault(e.route) && InfoOf(e.route).oif == Some(s.iface.ifid)
                   && InfoOf(e.route).priority == s.priority)))
  {
    hide InfoOf, Wanted, OnAttributes;
    if e.Addr? {
      AttributesKeepTheRest(cfg.pref, s.iface, e.addr, |e.addr.attributes|);
    }
  }

  /** A link is selected exactly if an interface is configured, none is selected yet, and the configured pattern matches
      the link's name or one of its alternative names. */
  lemma SelectedIff(cfg: Config, s: State, link: LinkMessage)
    requires s.iface.ifid == -1
    ensures OnLink(cfg, s, link).iface.ifid == link.index <==>
      && !link.del && cfg.interface.Some?
      && (Matches(cfg.interface.value, link.name)
          || exists k :: 0 <= k < |link.altnames| && Matches(cfg.interface.value, link.altnames[k]))
  {
    var names := [link.name] + link.altnames;
    assert forall k :: 0 <= k < |link.altnames| ==> names[k + 1] == link.altnames[k];
    assert forall name :: name in link.altnames ==> name in names;
  }

  /** `value` is what the last of the first `n` attributes that has one says. */
  ghost predicate IsLast<T(!new)>(
    attributes: seq<RouteAttribute>, n: nat, says: RouteAttribute -> Option<T>, value: Option<T>)
    requires n <= |attributes|
  {
    match value
    case None => forall k :: 0 <= k < n ==> says(attributes[k]).None?
    case Some(_) =>
      exists k :: 0 <= k < n && says(attributes[k]) == value && forall l :: k < l < n ==> says(attributes[l]).None?
  }

  function SaysGateway(attribute: RouteAttribute): Option<string> {
    if attribute.Gateway? then Some(attribute.text) else None
  }

  function SaysOif(attribute: RouteAttribute): Option<Index> {
    if attribute.Oif? then Some(attribute.index) else None
  }

  function SaysMetric(attribute: RouteAttribute): Option<nat> {
    if attribute.Priority? then Some(attribute.value) else None
  }

  lemma {:induction false} LastGateway(route: RouteMessage, n: nat)
    requires n <= |route.attributes|
    ensures IsLast(route.attributes, n, SaysGateway, RouteInfoTo(route, n).gateway)
  {
    if n == 0 {
    } else {
      LastGateway(route, n - 1);
      LastOneMore(route.attributes, n - 1, SaysGateway, RouteInfoTo(route, n - 1).gateway);
      hide IsLast;
    }
  }

  lemma {:induction false} LastOif(route: RouteMessage, n: nat)
    requires n <= |route.attributes|
    ensures IsLast(route.attributes, n, SaysOif, RouteInfoTo(route, n).oif)
  {
    if n == 0 {
    } else {
      LastOif(route, n - 1);
      LastOneMore(route.attributes, n - 1, SaysOif, RouteInfoTo(route, n - 1).oif);
      hide IsLast;
    }
  }

  lemma {:induction false} LastMetric(route: RouteMessage, n: nat) returns (metric: Option<nat>)
    requires n <= |route.attributes|
    ensures IsLast(route.attributes, n, SaysMetric, metric)
    ensures RouteInfoTo(route, n).priority == if metric.Some? then metric.value else 0
  {
    if n == 0 {
      metric := None;
    } else {
      var before := LastMetric(route, n - 1);
      LastOneMore(route.attributes, n - 1, SaysMetric, before);
      var last := SaysMetric(route.attributes[n - 1]);
      metric := if last.Some? then last else before;
      hide IsLast;
    }
  }

  lemma {:induction false} SomeDestination(route: RouteMessage, n: nat)
    requires n <= |route.attributes|
    ensures RouteInfoTo(route, n).destination <==>
      exists k :: 0 <= k < n && route.attributes[k].Destination?
        && (!route.attributes[k].zero || route.destinationLength != 0)
  {
    if n == 0 {
    } else {
      SomeDestination(route, n - 1);
    }
  }

  /** What the attributes of a route mean: of several gateways, interfaces or metrics the last, no metric being 0; and a
      destination if one is not all zeroes or the route's destination has a length. */
  lemma RouteAttributesMean(route: RouteMessage) returns (metric: Option<nat>)
    ensures var info, a := InfoOf(route), route.attributes;
      && IsLast(a, |a|, SaysGateway, info.gateway) && IsLast(a, |a|, SaysOif, info.oif)
      && IsLast(a, |a|, SaysMetric, metric) && info.priority == (if metric.Some? then metric.value else 0)
      && (info.destination <==>
            exists k :: 0 <= k < |a| && a[k].Destination? && (!a[k].zero || route.destinationLength != 0))
  {
    LastGateway(route, |route.attributes|);
    LastOif(route, |route.attributes|);
    metric := LastMetric(route, |route.attributes|);
    SomeDestination(route, |route.attributes|);
    hide RouteInfoTo, IsLast;
  }

  lemma LastOneMore<T(!new)>(a: seq<RouteAttribute>, n: nat, says: RouteAttribute -> Option<T>, value: Option<T>)
    requires n < |a| && IsLast(a, n, says, value)
    ensures IsLast(a, n + 1, says, if says(a[n]).Some? then says(a[n]) else value)
  {
  }

  /** A default route is one of the main table with a gateway and an interface, and no destination. */
  lemma DefaultRouteIff(route: RouteMessage)
    ensures IsDefault(route) <==>
      && route.mainTable
      && (exists k :: 0 <= k < |route.attributes| && route.attributes[k].Gateway?)
      && (exists k :: 0 <= k < |route.attributes| && route.attributes[k].Oif?)
      && (forall k :: 0 <= k < |route.attributes| && route.attributes[k].Destination? ==>
            route.attributes[k].zero && route.destinationLength == 0)
  {
    var metric := RouteAttributesMean(route);
    hide RouteInfoTo;
    assert forall k :: 0 <= k < |route.attributes| ==>
      (route.attributes[k].Gateway? <==> SaysGateway(route.attributes[k]).Some?)
      && (route.attributes[k].Oif? <==> SaysOif(route.attributes[k]).Some?);
  }

  function OnRoutes(s: State, routes: seq<RouteMessage>, n: nat): State
    requires n <= |routes|
  {
    if n == 0 then s else OnRoute(OnRoutes(s, routes, n - 1), routes[n - 1])
  }

  function Metric(route: RouteMessage): nat {
    InfoOf(route).priority
  }

  /** `best` is the first of the default routes of least metric. */
  ghost predicate IsFirstBest(routes: seq<RouteMessage>, n: nat, best: nat)
    requires n <= |routes|
  {
    && best < n && IsDefault(routes[best])
    && forall j :: 0 <= j < n && IsDefault(routes[j]) ==>
         Metric(routes[best]) <= Metric(routes[j]) && (j < best ==> Metric(routes[best]) < Metric(routes[j]))
  }

  ghost predicate Follows(s: State, route: RouteMessage) {
    && IsDefault(route) && Some(s.iface.ifid) == InfoOf(route).oif && Some(s.iface.gwaddr) == InfoOf(route).gateway
    && s.priority == Metric(route)
  }

  /** A dump of the routes, read without an interface, ends with the best default route, if there is one. */
  lemma {:induction false} RouteDumpFindsBest(s: State, routes: seq<RouteMessage>, n: nat) returns (best: nat)
    requires n <= |routes| && s.iface.ifid == -1 && forall j :: 0 <= j < n ==> !routes[j].del
    ensures var t := OnRoutes(s, routes, n);
      if exists j :: 0 <= j < n && IsDefault(routes[j]) then IsFirstBest(routes, n, best) && Follows(t, routes[best])
      else t == s
  {
    best := 0;
    if n == 0 {
    } else {
      best := RouteDumpFindsBest(s, routes, n - 1);
      hide InfoOf;
      if IsDefault(routes[n - 1]) && IsBetter(OnRoutes(s, routes, n - 1), routes[n - 1]) {
        best := n - 1;
      }
    }
  }

  // --- addresses ---------------------------------------------------------------------------------------------

  ghost predicate UsableBefore(iface: Iface, addr: AddrMessage, i: nat)
    requires i <= |addr.attributes|
  {
    exists j :: 0 <= j < i && Usable(iface, addr.attributes[j])
  }

  /** Of a message with several addresses the first usable one is shown. */
  lemma {:induction false} FirstAddressIsTaken(pref: Preference, iface: Iface, addr: AddrMessage, i: nat, first: nat)
    requires first < i <= |addr.attributes| && Usable(iface, addr.attributes[first])
    requires !UsableBefore(iface, addr, first)
    requires !addr.del && addr.prefix > 0 && HasPlace(pref, iface, addr.family)
    ensures OnAttributes(pref, iface, addr, i)
         == WithAddress(iface, addr.family, addr.attributes[first].text, addr.prefix)
  {
    if i - 1 > first {
      FirstAddressIsTaken(pref, iface, addr, i - 1, first);
    } else {
      NothingUsable(pref, iface, addr, first);
    }
  }

  lemma {:induction false} NothingUsable(pref: Preference, iface: Iface, addr: AddrMessage, i: nat)
    requires i <= |addr.attributes| && !UsableBefore(iface, addr, i)
    ensures OnAttributes(pref, iface, addr, i) == iface
  {
    if i == 0 {
    } else {
      assert !UsableBefore(iface, addr, i - 1) && !Usable(iface, addr.attributes[i - 1]);
      NothingUsable(pref, iface, addr, i - 1);
    }
  }

  /** Which of an address message's attributes is the address: on a point-to-point interface only the local one. */
  ghost predicate IsAddress(iface: Iface, attribute: AddrAttribute) {
    match attribute
    case Local(_) => true
    case Address(_) => !iface.p2p
    case OtherAddr => false
  }

  /** A new address on the selected interface, of global scope, of a family asked for and of which none is shown yet, is
      shown with its prefix length, and nothing else changes. */
  lemma NewAddressIsShown(cfg: Config, s: State, addr: AddrMessage, first: nat)
    requires s.iface.ifid == addr.index && !addr.linkScope && !addr.del && addr.prefix > 0
    requires first < |addr.attributes| && IsAddress(s.iface, addr.attributes[first])
    requires forall k :: 0 <= k < first ==> !IsAddress(s.iface, addr.attributes[k])
    ensures addr.family == Inet && cfg.pref in {IPv4, Both} && s.iface.cidr == 0 ==>
      OnAddr(cfg, s, addr) == s.(iface := s.iface.(ipaddr := addr.attributes[first].text, cidr := addr.prefix))
    ensures addr.family == Inet6 && cfg.pref in {IPv6, Both} && s.iface.cidr6 == 0 ==>
      OnAddr(cfg, s, addr) == s.(iface := s.iface.(ipaddr6 := addr.attributes[first].text, cidr6 := addr.prefix))
  {
    if HasPlace(cfg.pref, s.iface, addr.family) {
      FirstAddressIsTaken(cfg.pref, s.iface, addr, |addr.attributes|, first);
    }
    hide OnAttributes;
  }

  /** Any other new address changes nothing. */
  lemma OtherNewAddressIsIgnored(cfg: Config, s: State, addr: AddrMessage)
    requires !addr.del
    requires || s.iface.ifid != addr.index || addr.linkScope
             || (forall k :: 0 <= k < |addr.attributes| ==> !IsAddress(s.iface, addr.attributes[k]))
             || (addr.family == Inet && (cfg.pref == IPv6 || s.iface.cidr != 0))
             || (addr.family == Inet6 && (cfg.pref == IPv4 || s.iface.cidr6 != 0))
             || addr.family == OtherFamily
    ensures OnAddr(cfg, s, addr) == s
  {
    if Concerns(s, addr) {
      NoPlaceNoChange(cfg.pref, s.iface, addr, |addr.attributes|);
    }
    hide OnAttributes;
  }

  lemma {:induction false} NoPlaceNoChange(pref: Preference, iface: Iface, addr: AddrMessage, i: nat)
    requires i <= |addr.attributes| && !addr.del
    requires !HasPlace(pref, iface, addr.family) || (forall k :: 0 <= k < i ==> !IsAddress(iface, addr.attributes[k]))
             || addr.family == OtherFamily
    ensures OnAttributes(pref, iface, addr, i) == iface
  {
    if i == 0 {
    } else {
      NoPlaceNoChange(pref, iface, addr, i - 1);
    }
  }

  /** A deleted address of the selected interface takes with it the one shown of its family, and only that. */
  lemma DeletedAddressIsDropped(cfg: Config, s: State, addr: AddrMessage)
    requires s.iface.ifid == addr.index && !addr.linkScope && addr.del
    requires exists k :: 0 <= k < |addr.attributes| && IsAddress(s.iface, addr.attributes[k])
    ensures OnAddr(cfg, s, addr) == s.(iface := match addr.family
      case Inet => s.iface.(ipaddr := "", cidr := 0)
      case Inet6 => s.iface.(ipaddr6 := "", cidr6 := 0)
      case OtherFamily => s.iface)
  {
    DeletionClears(cfg.pref, s.iface, addr, |addr.attributes|);
    hide OnAttributes;
  }

  lemma {:induction false} DeletionClears(pref: Preference, iface: Iface, addr: AddrMessage, i: nat)
    requires i <= |addr.attributes| && addr.del
    ensures OnAttributes(pref, iface, addr, i)
         == if exists k :: 0 <= k < i && IsAddress(iface, addr.attributes[k]) then
              WithAddress(iface, addr.family, "", 0)
            else iface
  {
    if i == 0 {
    } else {
      DeletionClears(pref, iface, addr, i - 1);
      assert (exists k :: 0 <= k < i && IsAddress(iface, addr.attributes[k])) <==>
        (exists k :: 0 <= k < i - 1 && IsAddress(iface, addr.attributes[k]))
        || IsAddress(iface, addr.attributes[i - 1]);
    }
  }

  /** What is heard of the wireless connection replaces what was known, part by part, and nothing else; the link speed
      is that of sysfs, if the interface has a name. */
  lemma WirelessNewsIsShown(cfg: Config, s: State, e: Event)
    requires Enabled(cfg, s, e) && (e.ScanResult? || e.Station? || e.Update?)
    ensures var i, t := s.iface, Next(cfg, s, e).iface;
      && Next(cfg, s, e) == s.(iface := t)
      && t.essid == (if e.ScanResult? && e.scan.essid.Some? then e.scan.essid.value else i.essid)
      && t.bssid == (if e.ScanResult? && e.scan.bssid.Some? then e.scan.bssid.value else i.bssid)
      && t.dbm == (if e.ScanResult? && e.scan.dbm.Some? then e.scan.dbm.value else i.dbm)
      && t.strength == (if e.ScanResult? && e.scan.strength.Some? then e.scan.strength.value else i.strength)
      && t.strengthApp
         == (if e.ScanResult? && e.scan.strengthApp.Some? then e.scan.strengthApp.value else i.strengthApp)
      && t.frequency == (if e.ScanResult? && e.scan.frequency.Some? then e.scan.frequency.value else i.frequency)
      && t.txBitrate == (if e.Station? && e.tx.Some? then e.tx.value else i.txBitrate)
      && t.rxBitrate == (if e.Station? && e.rx.Some? then e.rx.value else i.rxBitrate)
      && t.linkSpeed == (if !e.Update? then i.linkSpeed else if i.ifname == "" then 0 else e.speed)
      && t == i.(essid := t.essid, bssid := t.bssid, dbm := t.dbm, strength := t.strength, strengthApp := t.strengthApp,
                 frequency := t.frequency, txBitrate := t.txBitrate, rxBitrate := t.rxBitrate, linkSpeed := t.linkSpeed)
  {
  }

  /** An address is shown exactly when its prefix length is not zero. */
  ghost predicate Agree(iface: Iface) {
    (iface.ipaddr != "" <==> iface.cidr != 0) && (iface.ipaddr6 != "" <==> iface.cidr6 != 0)
  }

  /** The message brings an address of prefix length zero where one is looked for. */
  ghost predicate TakesZero(cfg: Config, s: State, e: Event) {
    && e.Addr? && Concerns(s, e.addr) && !e.addr.del && e.addr.prefix == 0
    && HasPlace(cfg.pref, s.iface, e.addr.family) && UsableBefore(s.iface, e.addr, |e.addr.attributes|)
  }

  /** One attribute, on an interface that agrees or has already been given an address of length zero. */
  lemma AttributeAgrees(pref: Preference, iface: Iface, addr: AddrMessage, attribute: AddrAttribute)
    requires Agree(iface) || (!addr.del && addr.prefix == 0 && HasPlace(pref, iface, addr.family))
    ensures var t := OnAttribute(pref, iface, addr, attribute);
      && (Agree(t) <==>
            Agree(iface)
            && (addr.del || addr.prefix > 0 || !HasPlace(pref, iface, addr.family) || !Usable(iface, attribute)))
      && t.p2p == iface.p2p
      && (!addr.del && addr.prefix == 0 ==> HasPlace(pref, t, addr.family) == HasPlace(pref, iface, addr.family))
  {
  }

  lemma {:induction false} AttributesAgree(pref: Preference, iface: Iface, addr: AddrMessage, i: nat)
    requires i <= |addr.attributes| && Agree(iface)
    ensures var t := OnAttributes(pref, iface, addr, i);
      && (Agree(t) <==>
            addr.del || addr.prefix > 0 || !HasPlace(pref, iface, addr.family) || !UsableBefore(iface, addr, i))
      && t.p2p == iface.p2p
      && (!addr.del && addr.prefix == 0 ==> HasPlace(pref, t, addr.family) == HasPlace(pref, iface, addr.family))
  {
    if i == 0 {
    } else {
      AttributesAgree(pref, iface, addr, i - 1);
      AttributeAgrees(pref, OnAttributes(pref, iface, addr, i - 1), addr, addr.attributes[i - 1]);
      assert UsableBefore(iface, addr, i) <==>
        UsableBefore(iface, addr, i - 1) || Usable(iface, addr.attributes[i - 1]);
      hide OnAttribute, Agree, HasPlace;
    }
  }

  lemma LinksKeepAddresses(iface: Iface, link: LinkMessage)
    requires Agree(iface)
    ensures Agree(Updated(iface, link)) && Agree(Selected(iface, link))
  {
  }

  /** All other messages keep the addresses or drop them all. */
  lemma OtherStepsAgree(cfg: Config, s: State, e: Event)
    requires Agree(s.iface) && Enabled(cfg, s, e) && !e.Addr?
    ensures Agree(Next(cfg, s, e).iface)
  {
    assert Agree(CLEARED);
    if e.Link? {
      LinksKeepAddresses(s.iface, e.link);
      hide Agree, Updated, Selected, Wanted;
    } else {
      hide InfoOf;
    }
  }

  /** The agreement of address and prefix length survives everything but a prefix length of zero. */
  lemma StepKeepsAgreement(cfg: Config, s: State, e: Event)
    requires Agree(s.iface) && Enabled(cfg, s, e)
    ensures Agree(Next(cfg, s, e).iface) <==> !TakesZero(cfg, s, e)
  {
    if e.Addr? {
      AttributesAgree(cfg.pref, s.iface, e.addr, |e.addr.attributes|);
    } else {
      OtherStepsAgree(cfg, s, e);
    }
    hide InfoOf, Wanted, OnAttributes, Agree, OnLink, OnRoute, OnScan, Finish, Resync;
  }

  /** In every run without addresses of prefix length zero, an address is set exactly when its length is not 0. */
  lemma {:induction false} AddressIffPrefix(cfg: Config, run: seq<State>, events: seq<Event>, k: nat)
    requires IsRun(cfg, run, events) && k <= |events|
    requires forall i :: 0 <= i < k && events[i].Addr? ==> events[i].addr.prefix > 0
    ensures Agree(run[k].iface)
  {
    if k == 0 {
    } else {
      AddressIffPrefix(cfg, run, events, k - 1);
      assert run[k - 1 + 1] == Next(cfg, run[k - 1], events[k - 1]);
      StepKeepsAgreement(cfg, run[k - 1], events[k - 1]);
    }
  }

  /** A message that makes the tracker select interface 2: a link of the configured name, or a default route. */
  function Selecting(cfg: Config): Event {
    match cfg.interface
    case Some(name) => Link(LinkMessage(false, 2, true, false, name, [], Some(true)))
    case None => Route(RouteMessage(false, true, 0, [Gateway("10.0.0.1"), Oif(2)], false))
  }

  /** An address of a wanted family, with prefix length 0. */
  function ZeroAddress(cfg: Config): Event {
    Addr(AddrMessage(false, 2, false, if cfg.pref == IPv6 then Inet6 else Inet, 0, [Local("10.0.0.2")]))
  }

  lemma SelectingSelects(cfg: Config, s: State)
    requires s.iface.ifid == -1 && Agree(s.iface) && s.iface.cidr == s.iface.cidr6 == 0
    ensures var e := Selecting(cfg);
      && Enabled(cfg, s, e) && Next(cfg, s, e).iface.ifid == 2 && Agree(Next(cfg, s, e).iface)
      && Next(cfg, s, e).iface.cidr == Next(cfg, s, e).iface.cidr6 == 0
  {
    if cfg.interface.Some? {
      var link := Selecting(cfg).link;
      MatchesItself(link.name);
      assert link.name in [link.name] + link.altnames;
      hide Matches, Ask;
    } else {
      var route := Selecting(cfg).route;
      assert RouteInfoTo(route, 1) == RouteInfo(Some("10.0.0.1"), false, None, 0);
      assert RouteInfoTo(route, 2) == RouteInfo(Some("10.0.0.1"), false, Some(2), 0);
    }
  }

  /** With every configuration such an address, on the interface just selected, is shown with prefix length 0. */
  lemma ZeroPrefixBreaksAgreement(cfg: Config) returns (run: seq<State>)
    ensures IsRun(cfg, run, [Selecting(cfg), ZeroAddress(cfg)]) && Agree(run[1].iface) && !Agree(run[2].iface)
  {
    var start := Start(cfg, 0, 0, 0);
    SelectingSelects(cfg, start);
    var selected := Next(cfg, start, Selecting(cfg));
    var e := ZeroAddress(cfg);
    assert Usable(selected.iface, e.addr.attributes[0]);
    StepKeepsAgreement(cfg, selected, e);
    hide Next, Selecting, Agree;
    run := [start, selected, Next(cfg, selected, e)];
  }
}
