/**
 Port mappings of a compose document (apps/api/src/modules/applications/applications.helpers.ts):
 reading them, remapping their host side, dropping the reserved ones.

 The document is what the YAML loader returns. JavaScript's Number() and String() are
 parameters; all that is used of them is that a number which occurs reads back from its text.
 */
module ComposePorts {
  import opened Wrappers
  import opened Text

  datatype Num = Finite(value: real) | NonFinite(name: string)

  datatype Js = Js(number: string -> Num, text: Num -> string)

  /** Number(String(x)) is x, and String(x) has no separator of a port spec in it. */
  ghost predicate Known(js: Js, x: Num) {
    js.number(js.text(x)) == x && js.text(x) != "" && ':' !in js.text(x) && '/' !in js.text(x)
  }

  /** The numbers that occur are known: those read from some text and those of the mapping. */
  ghost predicate Lawful(js: Js, mapping: Mapping) {
    && (forall s: string {:trigger js.number(s)} :: Known(js, js.number(s)))
    && (forall k :: k in mapping ==> Known(js, mapping[k]))
  }

  /** Number() and String() as far as port numbers go: digits are read, everything else is NaN. */
  const DECIMAL: Js := Js(
    s => if Digits(s) then Finite(Text.Number(s) as real) else NAN,
    x => if IsNatural(x) then Decimal(x.value.Floor) else "NaN")

  predicate IsNatural(x: Num) {
    x.Finite? && x.value.Floor >= 0 && x.value.Floor as real == x.value
  }

  /** The law can be met: by DECIMAL, with any mapping to port numbers. */
  lemma LawIsMet(mapping: Mapping)
    requires forall k :: k in mapping ==> IsNatural(mapping[k])
    ensures Lawful(DECIMAL, mapping)
  {
    forall x: Num | IsNatural(x) || x == NAN ensures Known(DECIMAL, x) {
      if IsNatural(x) {
        NumberOfDecimal(x.value.Floor);
        DigitsHaveNoSeparator(Decimal(x.value.Floor));
      }
    }
    forall s: string ensures Known(DECIMAL, DECIMAL.number(s)) {
      assert Digits(s) ==> IsNatural(DECIMAL.number(s));
    }
  }

  lemma DigitsHaveNoSeparator(s: string)
    requires Digits(s)
    ensures ':' !in s && '/' !in s
  {
  }

  datatype Scalar = Str(s: string) | Number(n: Num)

  /** A member of a `ports:` list: "8080:80/tcp", the long form, or something else. */
  datatype Port =
    | Short(spec: string)
    | Long(published: Option<Scalar>, target: Option<Scalar>, protocol: string)
    | Other

  /** Its ports, when that is a list. */
  datatype Service = Service(name: string, ports: Option<seq<Port>>)

  datatype PortDef = PortDef(service: string, host: Option<Num>, container: Num, protocol: string)

  const RESERVED_HOST_PORTS: set<real> :=
    {22.0, 80.0, 443.0, 3000.0, 4000.0, 5432.0, 6379.0, 2019.0, 53.0, 25.0, 465.0, 587.0, 993.0, 995.0, 110.0, 143.0}

  // ── reading one entry ───────────────────────────────────────────────

  /** The pieces of a short entry: an address to bind, host and container port, protocol. */
  datatype Spec = Spec(bindIp: string, host: Option<Num>, container: Num, protocol: string)

  function ReadSpec(js: Js, p: string): Spec {
    var halves := Split(p, '/');
    var protocol := if |halves| > 1 then halves[1] else "";
    var parts := Split(halves[0], ':');
    if |parts| == 1 then Spec("", None, js.number(parts[0]), protocol)
    else if |parts| == 2 then Spec("", Some(js.number(parts[0])), js.number(parts[1]), protocol)
    else Spec(parts[0], Some(js.number(parts[1])), js.number(parts[2]), protocol)
  }

  function ToNumber(js: Js, x: Scalar): Num {
    match x
    case Str(s) => js.number(s)
    case Number(n) => n
  }

  function OrTcp(protocol: string): string {
    if protocol == "" then "tcp" else protocol
  }

  /** Number(undefined); a null target is treated alike. */
  const NAN := NonFinite("NaN")

  /** What parseComposePorts pushes for an entry, if anything. */
  function ReadPort(js: Js, service: string, p: Port): Option<PortDef> {
    match p
    case Short(spec) =>
      var r := ReadSpec(js, spec);
      if r.container.Finite? then Some(PortDef(service, r.host, r.container, OrTcp(r.protocol))) else None
    case Long(published, target, protocol) =>
      var host := if published.Some? then Some(ToNumber(js, published.value)) else None;
      var container := if target.Some? then ToNumber(js, target.value) else NAN;
      Some(PortDef(service, host, container, OrTcp(protocol)))
    case Other => None
  }

  function ReadPorts(js: Js, service: string, ports: seq<Port>): seq<PortDef>
    decreases |ports|
  {
    if ports == [] then []
    else
      var p := ReadPort(js, service, ports[0]);
      (if p.Some? then [p.value] else []) + ReadPorts(js, service, ports[1..])
  }

  function PortsOf(js: Js, s: Service): seq<PortDef> {
    if s.ports.Some? then ReadPorts(js, s.name, s.ports.value) else []
  }

  function Ports(js: Js, services: seq<Service>): seq<PortDef>
    decreases |services|
  {
    if services == [] then [] else PortsOf(js, services[0]) + Ports(js, services[1..])
  }

  /** The inner loop: the entries of one service. */
  method PushPorts(js: Js, service: string, ports: seq<Port>, before: seq<PortDef>) returns (out: seq<PortDef>)
    ensures out == before + ReadPorts(js, service, ports)
  {
    out := before;
    assert ports[0..] == ports;
    for k := 0 to |ports|
      invariant out + ReadPorts(js, service, ports[k..]) == before + ReadPorts(js, service, ports)
    {
      assert ports[k..][1..] == ports[k + 1..];
      var p := ReadPort(js, service, ports[k]);
      if p.Some? { out := out + [p.value]; }
    }
    assert ports[|ports|..] == [];
  }

  lemma {:induction false} PortsPrefix(js: Js, services: seq<Service>, k: nat)
    requires k < |services|
    ensures Ports(js, services[..k + 1]) == Ports(js, services[..k]) + PortsOf(js, services[k])
    decreases k
  {
    if k > 0 {
      PortsPrefix(js, services[1..], k - 1);
      assert services[..k + 1][1..] == services[1..][..k] && services[..k][1..] == services[1..][..k - 1];
    } else {
      assert services[..1][1..] == [] && services[..0] == [];
    }
  }

  method ParseComposePorts(js: Js, services: seq<Service>) returns (out: seq<PortDef>)
    ensures out == Ports(js, services)
  {
    out := [];
    for i := 0 to |services|
      invariant out == Ports(js, services[..i])
    {
      PortsPrefix(js, services, i);
      if services[i].ports.Some? { out := PushPorts(js, services[i].name, services[i].ports.value, out); }
    }
    assert services[..|services|] == services;
  }

  // ── remapping ───────────────────────────────────────────────────────

  type Mapping = map<string, Num>

  /** mapping[String(container)] ?? host ?? container */
  function NewHost(js: Js, mapping: Mapping, host: Option<Num>, container: Num): Num {
    if js.text(container) in mapping then mapping[js.text(container)]
    else if host.Some? then host.value
    else container
  }

  function WriteSpec(js: Js, bindIp: string, host: Num, container: Num, protocol: string): string {
    var base := (if bindIp != "" then bindIp + ":" else "") + (js.text(host) + ":" + js.text(container));
    if protocol != "" then base + "/" + protocol else base
  }

  function RemapPort(js: Js, mapping: Mapping, p: Port): Port {
    match p
    case Short(spec) =>
      var r := ReadSpec(js, spec);
      Short(WriteSpec(js, r.bindIp, NewHost(js, mapping, r.host, r.container), r.container, r.protocol))
    case Long(published, Some(target), protocol) =>
      var container := ToNumber(js, target);
      var host := if js.text(container) in mapping then Number(mapping[js.text(container)])
                  else if published.Some? then published.value
                  else Number(container);
      Long(Some(host), Some(Number(container)), protocol)
    case _ => p
  }

  function RemapPorts(js: Js, mapping: Mapping, ports: seq<Port>): seq<Port> {
    seq(|ports|, i requires 0 <= i < |ports| => RemapPort(js, mapping, ports[i]))
  }

  function RemapService(js: Js, mapping: Mapping, s: Service): Service {
    if s.ports.Some? then s.(ports := Some(RemapPorts(js, mapping, s.ports.value))) else s
  }

  function RemapAll(js: Js, mapping: Mapping, services: seq<Service>): seq<Service> {
    seq(|services|, i requires 0 <= i < |services| => RemapService(js, mapping, services[i]))
  }

  /** remapComposePorts: every service of the document, in place. */
  method RemapComposePorts(js: Js, mapping: Mapping, doc: array<Service>)
    modifies doc
    ensures doc[..] == RemapAll(js, mapping, old(doc[..]))
  {
    for i := 0 to doc.Length
      invariant forall k :: 0 <= k < i ==> doc[k] == RemapService(js, mapping, old(doc[k]))
      invariant forall k :: i <= k < doc.Length ==> doc[k] == old(doc[k])
    {
      if doc[i].ports.Some? { doc[i] := doc[i].(ports := Some(RemapPorts(js, mapping, doc[i].ports.value))); }
    }
  }

  /** The rewrite the caller asked for, told on the port definitions. A container-only entry
      becomes published; a long entry without a target is left alone. */
  function Rewritten(js: Js, mapping: Mapping, p: Port, d: PortDef): PortDef {
    if p.Long? && p.target.None? then d else d.(host := Some(NewHost(js, mapping, d.host, d.container)))
  }

  lemma PiecesHaveNoSlash(p: string)
    ensures forall part :: part in Split(Split(p, '/')[0], ':') ==> ':' !in part && '/' !in part
    ensures |Split(p, '/')| > 1 ==> '/' !in Split(p, '/')[1]
  {
    NoSlash(Split(p, '/')[0]);
  }

  lemma {:induction false} NoSlash(s: string)
    requires '/' !in s
    ensures forall part :: part in Split(s, ':') ==> '/' !in part
  {
    if s != "" {
      assert s[0] in s && forall c :: c in s[1..] ==> c in s;
      NoSlash(s[1..]);
      var rest := Split(s[1..], ':');
      forall part | part in Split(s, ':') ensures '/' !in part {
        if s[0] == ':' {
          assert part == "" || part in rest;
        } else {
          assert rest[0] in rest;
          assert part == [s[0]] + rest[0] || part in rest[1..];
        }
      }
    }
  }

  /** A spec that was written reads back: its pieces have no separators in them. */
  lemma WrittenSpecReadsBack(js: Js, bindIp: string, host: Num, container: Num, protocol: string)
    requires Known(js, host) && Known(js, container) && ':' !in bindIp && '/' !in bindIp && '/' !in protocol
    ensures ReadSpec(js, WriteSpec(js, bindIp, host, container, protocol)) == Spec(bindIp, Some(host), container, protocol)
  {
    var h, c := js.text(host), js.text(container);
    var pair := h + ":" + c;
    var base := (if bindIp != "" then bindIp + ":" else "") + pair;
    SplitWhole(c, ':');
    SplitFirst(h, ':', c);
    if bindIp != "" {
      SplitFirst(bindIp, ':', pair);
    } else {
      assert "" + pair == pair;
    }
    assert '/' !in base;
    if protocol != "" {
      SplitWhole(protocol, '/');
      SplitFirst(base, '/', protocol);
    } else {
      SplitWhole(base, '/');
    }
  }

  lemma RemappedPortReads(js: Js, mapping: Mapping, service: string, p: Port)
    requires Lawful(js, mapping)
    ensures var was, now := ReadPort(js, service, p), ReadPort(js, service, RemapPort(js, mapping, p));
            && (now.Some? <==> was.Some?)
            && (was.Some? ==> now.value == Rewritten(js, mapping, p, was.value))
  {
    if p.Short? {
      PiecesHaveNoSlash(p.spec);
      var r := ReadSpec(js, p.spec);
      var parts := Split(Split(p.spec, '/')[0], ':');
      assert parts[0] in parts;
      WrittenSpecReadsBack(js, r.bindIp, NewHost(js, mapping, r.host, r.container), r.container, r.protocol);
    }
  }

  /** The definitions of a list of entries, each rewritten. */
  function RewrittenPorts(js: Js, mapping: Mapping, service: string, ports: seq<Port>): seq<PortDef>
    decreases |ports|
  {
    if ports == [] then []
    else
      var d := ReadPort(js, service, ports[0]);
      (if d.Some? then [Rewritten(js, mapping, ports[0], d.value)] else []) + RewrittenPorts(js, mapping, service, ports[1..])
  }

  lemma {:induction false} RemappedPortsRead(js: Js, mapping: Mapping, service: string, ports: seq<Port>)
    requires Lawful(js, mapping)
    ensures ReadPorts(js, service, RemapPorts(js, mapping, ports)) == RewrittenPorts(js, mapping, service, ports)
    decreases |ports|
  {
    if ports != [] {
      RemappedPortReads(js, mapping, service, ports[0]);
      RemappedPortsRead(js, mapping, service, ports[1..]);
      assert RemapPorts(js, mapping, ports)[1..] == RemapPorts(js, mapping, ports[1..]);
    }
  }

  function AllRewritten(js: Js, mapping: Mapping, services: seq<Service>): seq<PortDef>
    decreases |services|
  {
    if services == [] then []
    else
      var s := services[0];
      (if s.ports.Some? then RewrittenPorts(js, mapping, s.name, s.ports.value) else []) + AllRewritten(js, mapping, services[1..])
  }

  /** MAIN RESULT. Parsing a remapped document gives the port definitions of the original with their host
      sides rewritten one by one: nothing is lost, added, reordered or attached to another service. */
  lemma {:induction false} RemapRewritesHosts(js: Js, mapping: Mapping, services: seq<Service>)
    requires Lawful(js, mapping)
    ensures Ports(js, RemapAll(js, mapping, services)) == AllRewritten(js, mapping, services)
    decreases |services|
  {
    if services != [] {
      if services[0].ports.Some? { RemappedPortsRead(js, mapping, services[0].name, services[0].ports.value); }
      RemapRewritesHosts(js, mapping, services[1..]);
      assert RemapAll(js, mapping, services)[1..] == RemapAll(js, mapping, services[1..]);
    }
  }

  /** MAIN RESULT. The table decides first, by the container port; without an entry the port that was published stays, and
      a port that was not published is published under its own number. Container port, protocol and service stay. */
  lemma TableDecidesFirst(js: Js, mapping: Mapping, service: string, p: Port, d: PortDef)
    requires Lawful(js, mapping) && ReadPort(js, service, p) == Some(d) && (p.Long? ==> p.target.Some?)
    ensures var key := js.text(d.container);
            ReadPort(js, service, RemapPort(js, mapping, p)) ==
              Some(PortDef(d.service,
                           Some(if key in mapping then mapping[key] else if d.host.Some? then d.host.value else d.container),
                           d.container, d.protocol))
  {
    RemappedPortReads(js, mapping, service, p);
  }

  /** The text of a short entry: an address, host and container port, a protocol; the first, the second and the last may be missing. */
  function ShortText(ip: Option<string>, host: Option<string>, container: string, protocol: Option<string>): string {
    (if ip.Some? then ip.value + ":" else "")
    + ((if host.Some? then host.value + ":" else "") + (container + if protocol.Some? then "/" + protocol.value else ""))
  }

  predicate Piece(s: string) {
    ':' !in s && '/' !in s
  }

  /** An empty address or protocol is not written again. */
  function Nonempty(s: Option<string>): Option<string> {
    if s == Some("") then None else s
  }

  /** MAIN RESULT. How a short entry is read and rewritten, told on its text: the address and the protocol stay, the host side
      is the table's or the old one or the container's. */
  lemma ShortEntryIsRewritten(js: Js, mapping: Mapping, ip: Option<string>, host: Option<string>, container: string, protocol: Option<string>)
    requires Piece(container) && (ip.Some? ==> host.Some? && Piece(ip.value))
    requires (host.Some? ==> Piece(host.value)) && (protocol.Some? ==> '/' !in protocol.value)
    ensures var c := js.number(container);
            var key := js.text(c);
            var newHost := if key in mapping then mapping[key] else if host.Some? then js.number(host.value) else c;
            RemapPort(js, mapping, Short(ShortText(ip, host, container, protocol))) ==
              Short(ShortText(Nonempty(ip), Some(js.text(newHost)), key, Nonempty(protocol)))
  {
    ShortTextReads(js, ip, host, container, protocol);
    var c := js.number(container);
    SpecIsWritten(js, ip, NewHost(js, mapping, if host.Some? then Some(js.number(host.value)) else None, c), c, protocol);
  }

  lemma SpecIsWritten(js: Js, ip: Option<string>, host: Num, container: Num, protocol: Option<string>)
    ensures WriteSpec(js, if ip.Some? then ip.value else "", host, container, if protocol.Some? then protocol.value else "") ==
              ShortText(Nonempty(ip), Some(js.text(host)), js.text(container), Nonempty(protocol))
  {
    var pair := js.text(host) + ":" + js.text(container);
    if Nonempty(protocol).Some? {
      assert js.text(host) + ":" + (js.text(container) + "/" + protocol.value) == pair + "/" + protocol.value;
      if Nonempty(ip).Some? {
        assert ip.value + ":" + (pair + "/" + protocol.value) == ip.value + ":" + pair + "/" + protocol.value;
      }
    } else {
      assert js.text(host) + ":" + (js.text(container) + "") == pair;
    }
  }

  /** MAIN RESULT. What an entry publishes, told on its text: a short one its container port when that is a number, on the
      host port before it if there is one, by its protocol, tcp when it names none; a long one likewise, and even
      without a target. */
  lemma EntryPublishes(js: Js, service: string, ip: Option<string>, host: Option<string>, container: string,
                       protocol: Option<string>, published: Option<Scalar>, target: Option<Scalar>, named: string)
    requires Piece(container) && (ip.Some? ==> host.Some? && Piece(ip.value))
    requires (host.Some? ==> Piece(host.value)) && (protocol.Some? ==> '/' !in protocol.value)
    ensures var spoken := if protocol == None || protocol == Some("") then "tcp" else protocol.value;
            var c := js.number(container);
            ReadPort(js, service, Short(ShortText(ip, host, container, protocol))) ==
              match c
              case Finite(_) => Some(PortDef(service, if host.Some? then Some(js.number(host.value)) else None, c, spoken))
              case NonFinite(_) => None
    ensures var read := ReadPort(js, service, Long(published, target, named));
            && read.Some? && read.value.service == service && read.value.protocol == (if named == "" then "tcp" else named)
            && (target.None? ==> read.value.container == NonFinite("NaN"))
            && (forall s :: target == Some(Str(s)) ==> read.value.container == js.number(s))
            && (forall n :: target == Some(Number(n)) ==> read.value.container == n)
            && (read.value.host.None? <==> published.None?)
            && (forall s :: published == Some(Str(s)) ==> read.value.host == Some(js.number(s)))
            && (forall n :: published == Some(Number(n)) ==> read.value.host == Some(n))
  {
    ShortTextReads(js, ip, host, container, protocol);
  }

  lemma ShortTextReads(js: Js, ip: Option<string>, host: Option<string>, container: string, protocol: Option<string>)
    requires Piece(container) && (ip.Some? ==> host.Some? && Piece(ip.value))
    requires (host.Some? ==> Piece(host.value)) && (protocol.Some? ==> '/' !in protocol.value)
    ensures ReadSpec(js, ShortText(ip, host, container, protocol)) ==
              Spec(if ip.Some? then ip.value else "", if host.Some? then Some(js.number(host.value)) else None,
                   js.number(container), if protocol.Some? then protocol.value else "")
  {
    var ports := (if ip.Some? then ip.value + ":" else "") + ((if host.Some? then host.value + ":" else "") + container);
    var text := ShortText(ip, host, container, protocol);
    assert '/' !in ports;
    if protocol.Some? {
      assert text == ports + "/" + protocol.value;
      SplitFirst(ports, '/', protocol.value);
      SplitWhole(protocol.value, '/');
    } else {
      assert text == ports;
      SplitWhole(ports, '/');
    }
    PortsSplit(ip, host, container);
  }

  lemma PortsSplit(ip: Option<string>, host: Option<string>, container: string)
    requires Piece(container) && (ip.Some? ==> host.Some? && Piece(ip.value)) && (host.Some? ==> Piece(host.value))
    ensures Split((if ip.Some? then ip.value + ":" else "") + ((if host.Some? then host.value + ":" else "") + container), ':') ==
              (if ip.Some? then [ip.value] else []) + ((if host.Some? then [host.value] else []) + [container])
  {
    SplitWhole(container, ':');
    var pair := (if host.Some? then host.value + ":" else "") + container;
    if host.Some? {
      SplitFirst(host.value, ':', container);
    } else {
      assert pair == container;
    }
    if ip.Some? {
      SplitFirst(ip.value, ':', pair);
    } else {
      assert "" + pair == pair;
    }
  }

  /** Remapping again with the same table changes nothing more. */
  lemma RemapIsIdempotent(js: Js, mapping: Mapping, p: Port)
    requires Lawful(js, mapping)
    ensures RemapPort(js, mapping, RemapPort(js, mapping, p)) == RemapPort(js, mapping, p)
  {
    if p.Short? {
      PiecesHaveNoSlash(p.spec);
      var r := ReadSpec(js, p.spec);
      var parts := Split(Split(p.spec, '/')[0], ':');
      assert parts[0] in parts;
      WrittenSpecReadsBack(js, r.bindIp, NewHost(js, mapping, r.host, r.container), r.container, r.protocol);
    }
  }

  // ── dropping reserved ports ─────────────────────────────────────────

  predicate Reserved(host: Option<Num>) {
    host.Some? && host.value.Finite? && host.value.value in RESERVED_HOST_PORTS
  }

  /** The host side, as the filter reads it: on its own, not through parseComposePorts. */
  function HostSide(js: Js, p: Port): Option<Num> {
    match p
    case Short(spec) =>
      var parts := Split(Split(spec, '/')[0], ':');
      if |parts| == 2 then Some(js.number(parts[0]))
      else if |parts| >= 3 then Some(js.number(parts[1]))
      else None
    case Long(published, _, _) => if published.Some? then Some(ToNumber(js, published.value)) else None
    case Other => None
  }

  function KeepPort(js: Js, p: Port): seq<Port> {
    if Reserved(HostSide(js, p)) then [] else [p]
  }

  function KeepPorts(js: Js, ports: seq<Port>): seq<Port>
    decreases |ports|
  {
    if ports == [] then [] else KeepPort(js, ports[0]) + KeepPorts(js, ports[1..])
  }

  lemma {:induction false} KeepPortsPrefix(js: Js, ports: seq<Port>, k: nat)
    requires k < |ports|
    ensures KeepPorts(js, ports[..k + 1]) == KeepPorts(js, ports[..k]) + KeepPort(js, ports[k])
    decreases k
  {
    if k > 0 {
      KeepPortsPrefix(js, ports[1..], k - 1);
      assert ports[..k + 1][1..] == ports[1..][..k] && ports[..k][1..] == ports[1..][..k - 1];
    } else {
      assert ports[..1][1..] == [] && ports[..0] == [];
    }
  }

  function StripService(js: Js, s: Service): Service {
    if s.ports.None? then s
    else
      var kept := KeepPorts(js, s.ports.value);
      s.(ports := if kept == [] then None else Some(kept))
  }

  function StripAll(js: Js, services: seq<Service>): seq<Service> {
    seq(|services|, i requires 0 <= i < |services| => StripService(js, services[i]))
  }

  method FilterPorts(js: Js, ports: seq<Port>) returns (kept: seq<Port>)
    ensures kept == KeepPorts(js, ports)
  {
    kept := [];
    for k := 0 to |ports|
      invariant kept == KeepPorts(js, ports[..k])
    {
      KeepPortsPrefix(js, ports, k);
      var host := HostSide(js, ports[k]);
      if !(host.Some? && host.value.Finite? && host.value.value in RESERVED_HOST_PORTS) { kept := kept + [ports[k]]; }
    }
    assert ports[..|ports|] == ports;
  }

  /** stripReservedComposePorts, in place; a list left empty is deleted. */
  method StripReservedComposePorts(js: Js, doc: array<Service>)
    modifies doc
    ensures doc[..] == StripAll(js, old(doc[..]))
  {
    for i := 0 to doc.Length
      invariant forall k :: 0 <= k < i ==> doc[k] == StripService(js, old(doc[k]))
      invariant forall k :: i <= k < doc.Length ==> doc[k] == old(doc[k])
    {
      if doc[i].ports.Some? {
        var kept := FilterPorts(js, doc[i].ports.value);
        doc[i] := doc[i].(ports := if kept == [] then None else Some(kept));
      }
    }
  }

  function Unreserved(defs: seq<PortDef>): seq<PortDef>
    decreases |defs|
  {
    if defs == [] then []
    else (if Reserved(defs[0].host) then [] else [defs[0]]) + Unreserved(defs[1..])
  }

  lemma {:induction false} UnreservedConcat(a: seq<PortDef>, b: seq<PortDef>)
    ensures Unreserved(a + b) == Unreserved(a) + Unreserved(b)
    decreases |a|
  {
    if a == [] {
      assert a + b == b;
    } else {
      assert (a + b)[1..] == a[1..] + b;
      UnreservedConcat(a[1..], b);
    }
  }

  lemma {:induction false} KeptPortsRead(js: Js, service: string, ports: seq<Port>)
    ensures ReadPorts(js, service, KeepPorts(js, ports)) == Unreserved(ReadPorts(js, service, ports))
    decreases |ports|
  {
    if ports != [] {
      var d := ReadPort(js, service, ports[0]);
      var rest := ReadPorts(js, service, ports[1..]);
      KeptPortsRead(js, service, ports[1..]);
      assert d.Some? ==> d.value.host == HostSide(js, ports[0]);
      if d.Some? {
        assert ([d.value] + rest)[1..] == rest;
      } else {
        assert [] + rest == rest;
      }
      if !Reserved(HostSide(js, ports[0])) {
        assert ([ports[0]] + KeepPorts(js, ports[1..]))[1..] == KeepPorts(js, ports[1..]);
      } else {
        assert [] + KeepPorts(js, ports[1..]) == KeepPorts(js, ports[1..]);
      }
    }
  }

  lemma StrippedServiceReads(js: Js, s: Service)
    ensures PortsOf(js, StripService(js, s)) == Unreserved(PortsOf(js, s))
  {
    if s.ports.Some? {
      KeptPortsRead(js, s.name, s.ports.value);
      assert KeepPorts(js, s.ports.value) == [] ==> ReadPorts(js, s.name, []) == [];
    }
  }

  /** MAIN RESULT. What a stripped document publishes is exactly what the original published on ports that
      are not reserved, in the same order and for the same services. */
  lemma {:induction false} StripLeavesTheUnreserved(js: Js, services: seq<Service>)
    ensures Ports(js, StripAll(js, services)) == Unreserved(Ports(js, services))
    decreases |services|
  {
    if services != [] {
      var stripped := StripAll(js, services);
      StrippedServiceReads(js, services[0]);
      StripLeavesTheUnreserved(js, services[1..]);
      assert stripped[0] == StripService(js, services[0]) && stripped[1..] == StripAll(js, services[1..]);
      UnreservedConcat(PortsOf(js, services[0]), Ports(js, services[1..]));
    }
  }

  lemma {:induction false} NoneReserved(defs: seq<PortDef>)
    ensures forall i :: 0 <= i < |Unreserved(defs)| ==> !Reserved(Unreserved(defs)[i].host)
    decreases |defs|
  {
    if defs != [] { NoneReserved(defs[1..]); }
  }

  /** No entry is left whose host side the service reads as a reserved port. */
  lemma StrippedPublishesNoReservedPort(js: Js, services: seq<Service>)
    ensures var defs := Ports(js, StripAll(js, services));
            forall i :: 0 <= i < |defs| ==> !Reserved(defs[i].host)
  {
    StripLeavesTheUnreserved(js, services);
    NoneReserved(Ports(js, services));
  }

  // ── what compose itself publishes ───────────────────────────────────

  predicate IsPort(s: string) {
    Digits(s) && Text.Number(s) <= 65535
  }

  /** A port is read as its number, and a range of ports is no number. */
  ghost predicate ReadsPorts(js: Js) {
    && (forall s: string {:trigger js.number(s)} :: IsPort(s) ==> js.number(s) == Finite(Text.Number(s) as real))
    && (forall a: string, b: string {:trigger Range(a, b)} :: IsPort(a) && IsPort(b) ==> js.number(Range(a, b)).NonFinite?)
  }

  function Range(a: string, b: string): string {
    a + "-" + b
  }

  lemma DecimalReadsPorts()
    ensures ReadsPorts(DECIMAL)
  {
    forall a: string, b: string | IsPort(a) && IsPort(b) ensures DECIMAL.number(Range(a, b)).NonFinite? {
      assert Range(a, b)[|a|] == '-';
    }
  }

  /** The host side of an entry in compose's terms: one port, or all ports of a range. */
  datatype Published = One(port: string) | Span(first: string, last: string)

  predicate WellFormed(h: Published) {
    match h
    case One(port) => IsPort(port)
    case Span(first, last) => IsPort(first) && IsPort(last)
  }

  function HostText(h: Published): string {
    match h
    case One(port) => port
    case Span(first, last) => Range(first, last)
  }

  predicate Covers(h: Published, port: nat)
    requires WellFormed(h)
  {
    match h
    case One(n) => Text.Number(n) == port
    case Span(first, last) => Text.Number(first) <= port <= Text.Number(last)
  }

  ghost predicate CoversReserved(h: Published)
    requires WellFormed(h)
  {
    exists port: nat :: Covers(h, port) && port as real in RESERVED_HOST_PORTS
  }

  lemma HostTextHasNoSeparator(h: Published)
    requires WellFormed(h)
    ensures ':' !in HostText(h) && '/' !in HostText(h)
  {
  }

  /** MAIN RESULT. On "host:container" entries the filter drops an entry for publishing a reserved port
      exactly as compose would, except when a range of ports reaches over one: ranges are always kept. */
  lemma FilterAgreesExactlyWhen(js: Js, h: Published, container: string)
    requires ReadsPorts(js) && WellFormed(h) && ':' !in container && '/' !in container
    ensures var p := Short(HostText(h) + ":" + container);
            && (KeepPort(js, p) == [] <==> h.One? && CoversReserved(h))
            && ((KeepPort(js, p) == [] <==> CoversReserved(h)) <==> !(h.Span? && CoversReserved(h)))
  {
    var host := HostText(h);
    HostTextHasNoSeparator(h);
    SplitWhole(host + ":" + container, '/');
    SplitFirst(host, ':', container);
    SplitWhole(container, ':');
    if h.One? {
      assert Covers(h, Text.Number(h.port));
    } else {
      assert js.number(Range(h.first, h.last)).NonFinite?;
    }
  }
}
