/** The fleet topology graph: `ipv4_network` and `build_topology_graph`.

    Addresses are 32 bits, most significant first, so that masking is written as the code writes it. Node ids and
    network keys are kept in structured form; `digest` stands for the hash that names a switch. */
module Topology {
  import opened Text

  // ---- Networks ----

  type Bits = s: seq<bool> | |s| == 32 witness seq(32, i => false)

  datatype Cidr = Cidr(address: Bits, prefix: nat)

  function All(b: bool): Bits {
    seq(32, i => b)
  }

  function ShiftLeft(bits: Bits, n: nat): Bits
    requires n < 32
  {
    bits[n..] + All(false)[..n]
  }

  function And(a: Bits, b: Bits): Bits {
    seq(32, i requires 0 <= i < 32 => a[i] && b[i])
  }

  /** The mask of a prefix length; a shift by all 32 bits is avoided. */
  function Mask(prefix: nat): Bits
    requires prefix <= 32
  {
    if prefix == 0 then All(false) else ShiftLeft(All(true), 32 - prefix)
  }

  /** `ipv4_network`: the masked address, unless the prefix length is out of range. */
  function Ipv4Network(c: Cidr): Option<Cidr> {
    if c.prefix > 32 then None else Some(Cidr(And(c.address, Mask(c.prefix)), c.prefix))
  }

  lemma MaskedBits(a: Bits, prefix: nat)
    requires prefix <= 32
    ensures And(a, Mask(prefix))[..prefix] == a[..prefix]
    ensures forall i :: prefix <= i < 32 ==> !And(a, Mask(prefix))[i]
  {
    var m := Mask(prefix);
    assert forall i :: 0 <= i < 32 ==> (m[i] <==> i < prefix);
  }

  /** Two addresses of the same prefix length have the same network exactly when their leading bits agree. */
  lemma SameNetworkExactly(a: Cidr, b: Cidr)
    requires a.prefix <= 32 && b.prefix <= 32
    ensures Ipv4Network(a) == Ipv4Network(b) <==> a.prefix == b.prefix && a.address[..a.prefix] == b.address[..b.prefix]
  {
    MaskedBits(a.address, a.prefix);
    MaskedBits(b.address, b.prefix);
    var x, y := And(a.address, Mask(a.prefix)), And(b.address, Mask(b.prefix));
    if a.prefix == b.prefix && a.address[..a.prefix] == b.address[..b.prefix] {
      forall i | 0 <= i < 32 ensures x[i] == y[i] {
        if i < a.prefix {
          assert x[i] == x[..a.prefix][i] && y[i] == y[..a.prefix][i];
        }
      }
      assert x == y;
    }
  }

  // ---- What hosts report ----

  datatype Interface = Interface(
    name: string,
    vlan: Option<nat>,
    addresses: seq<Cidr>,
    speed: Option<nat>,
    mac: Option<string>,
    neighbors: seq<string>)

  /** A switch seen by LLDP, and the local interface it was seen on. */
  datatype Neighbor = Neighbor(identity: Option<string>, port: string)

  /** A host row; a row without a target is passed over, and so is a neighbour without an identity. */
  datatype Row = Row(target: Option<string>, interfaces: seq<Interface>, lldp: seq<Neighbor>)

  datatype NetworkKey = NetworkKey(vlan: Option<nat>, subnet: Cidr)

  /** The network an interface address belongs to; single addresses belong to none. */
  function NetworkOf(vlan: Option<nat>, c: Cidr): Option<NetworkKey> {
    var subnet := Ipv4Network(c);
    if subnet.None? || subnet.value.prefix == 32 then None else Some(NetworkKey(vlan, subnet.value))
  }

  /** Two interface addresses share a network exactly when tag, prefix length and leading bits agree. */
  lemma SharedNetworkExactly(v: Option<nat>, a: Cidr, w: Option<nat>, b: Cidr)
    requires a.prefix < 32 && b.prefix < 32
    ensures NetworkOf(v, a).Some?
    ensures NetworkOf(v, a) == NetworkOf(w, b) <==>
              v == w && a.prefix == b.prefix && a.address[..a.prefix] == b.address[..b.prefix]
  {
    SameNetworkExactly(a, b);
  }

  /** An interface address has a network exactly when its prefix is shorter than 32 bits: its leading bits, the rest
      being zero. */
  lemma NetworkOfExactly(vlan: Option<nat>, c: Cidr)
    ensures NetworkOf(vlan, c).Some? <==> c.prefix < 32
    ensures c.prefix < 32 ==>
              var key := NetworkOf(vlan, c).value;
              && key.vlan == vlan && key.subnet.prefix == c.prefix
              && (forall i :: 0 <= i < c.prefix ==> key.subnet.address[i] == c.address[i])
              && forall i :: c.prefix <= i < 32 ==> !key.subnet.address[i]
  {
    if c.prefix < 32 {
      MaskedBits(c.address, c.prefix);
      var masked := And(c.address, Mask(c.prefix));
      assert forall i :: 0 <= i < c.prefix ==> masked[i] == masked[..c.prefix][i] == c.address[..c.prefix][i];
    }
  }

  function LowerChar(c: char): char {
    if 'A' <= c <= 'Z' then (c as int + 32) as char else c
  }

  function Lower(s: string): string {
    seq(|s|, i requires 0 <= i < |s| => LowerChar(s[i]))
  }

  /** The same letter in the two cases. */
  predicate OtherCase(upper: char, lower: char) {
    'A' <= upper <= 'Z' && lower as int - 'a' as int == upper as int - 'A' as int
  }

  /** Equal up to the case of letters. */
  predicate SameMac(a: string, b: string) {
    |a| == |b| && forall i :: 0 <= i < |a| ==> a[i] == b[i] || OtherCase(a[i], b[i]) || OtherCase(b[i], a[i])
  }

  lemma LowerExactly(a: string, b: string)
    ensures Lower(a) == Lower(b) <==> SameMac(a, b)
  {
    var x, y := Lower(a), Lower(b);
    if SameMac(a, b) {
      assert forall i :: 0 <= i < |a| ==> x[i] == y[i];
    }
    if x == y {
      assert forall i :: 0 <= i < |a| ==> LowerChar(a[i]) == x[i] == y[i] == LowerChar(b[i]);
    }
  }

  /** One address of one interface of one host, on its network. */
  datatype Attachment = Attachment(target: string, key: NetworkKey, port: Interface)

  function PortAttachments(target: string, port: Interface, addresses: seq<Cidr>): seq<Attachment> {
    if addresses == [] then []
    else
      var n := |addresses| - 1;
      var key := NetworkOf(port.vlan, addresses[n]);
      PortAttachments(target, port, addresses[..n]) + if key.Some? then [Attachment(target, key.value, port)] else []
  }

  function HostAttachments(target: string, ports: seq<Interface>): seq<Attachment> {
    if ports == [] then []
    else
      var n := |ports| - 1;
      HostAttachments(target, ports[..n]) + PortAttachments(target, ports[n], ports[n].addresses)
  }

  function Attachments(rows: seq<Row>): seq<Attachment> {
    if rows == [] then []
    else
      var n := |rows| - 1;
      Attachments(rows[..n]) + if rows[n].target.Some? then HostAttachments(rows[n].target.value, rows[n].interfaces)
        else []
  }

  // ---- What a network has seen ----

  datatype Acc = Acc(members: set<string>, macs: set<string>, seen: set<string>, speed: Option<nat>)

  const NOTHING := Acc({}, {}, {}, None)

  function Faster(a: Option<nat>, b: Option<nat>): Option<nat> {
    if a.None? || (b.Some? && b.value >= a.value) then b else a
  }

  function NeighborMacs(port: Interface): set<string> {
    set mac | mac in port.neighbors :: Lower(mac)
  }

  function Attach(acc: Acc, a: Attachment): Acc {
    Acc(acc.members + {a.target},
        if a.port.mac.Some? then acc.macs + {Lower(a.port.mac.value)} else acc.macs,
        acc.seen + NeighborMacs(a.port),
        Faster(acc.speed, a.port.speed))
  }

  /** The accumulated network of a key. */
  function Summary(attachments: seq<Attachment>, key: NetworkKey): Acc {
    if attachments == [] then NOTHING
    else
      var n := |attachments| - 1;
      var earlier := Summary(attachments[..n], key);
      if attachments[n].key == key then Attach(earlier, attachments[n]) else earlier
  }

  predicate On(attachments: seq<Attachment>, key: NetworkKey, a: Attachment) {
    a in attachments && a.key == key
  }

  /** The largest speed reported on the network; none when no attached port reports one. */
  predicate LargestSpeed(attachments: seq<Attachment>, key: NetworkKey, speed: Option<nat>) {
    && (forall a :: a in attachments && On(attachments, key,
                                           a) && a.port.speed.Some? ==>
                                               speed.Some? && a.port.speed.value <= speed.value)
    && (speed.Some? ==> exists a :: a in attachments && On(attachments, key, a) && a.port.speed == speed)
  }

  lemma {:induction false} SpeedIsLargest(attachments: seq<Attachment>, key: NetworkKey)
    ensures LargestSpeed(attachments, key, Summary(attachments, key).speed)
  {
    if attachments != [] {
      var n := |attachments| - 1;
      var earlier, last := attachments[..n], attachments[n];
      SpeedIsLargest(earlier, key);
      SummaryStep(earlier, last, key);
      assert attachments == earlier + [last];
      var speed := Summary(attachments, key).speed;
      if speed.Some? && speed == Summary(earlier, key).speed {
        var a :| a in earlier && On(earlier, key, a) && a.port.speed == speed;
        assert a in attachments && On(attachments, key, a);
      } else if speed.Some? {
        assert last in attachments && On(attachments, key, last);
      }
    }
  }

  predicate HasMember(attachments: seq<Attachment>, key: NetworkKey, target: string) {
    exists a :: a in attachments && On(attachments, key, a) && a.target == target
  }

  predicate HasMac(attachments: seq<Attachment>, key: NetworkKey, mac: string) {
    exists a :: a in attachments && On(attachments, key, a) && a.port.mac.Some? && Lower(a.port.mac.value) == mac
  }

  predicate SeesMac(attachments: seq<Attachment>, key: NetworkKey, mac: string) {
    exists a :: a in attachments && On(attachments, key, a) && mac in NeighborMacs(a.port)
  }

  lemma {:induction false} SummaryExactly(attachments: seq<Attachment>, key: NetworkKey)
    ensures forall t :: t in Summary(attachments, key).members <==> HasMember(attachments, key, t)
    ensures forall m :: m in Summary(attachments, key).macs <==> HasMac(attachments, key, m)
    ensures forall m :: m in Summary(attachments, key).seen <==> SeesMac(attachments, key, m)
  {
    if attachments != [] {
      var n := |attachments| - 1;
      SummaryExactly(attachments[..n], key);
      SummaryStep(attachments[..n], attachments[n], key);
      assert attachments == attachments[..n] + [attachments[n]];
    }
  }

  lemma SummaryStep(earlier: seq<Attachment>, last: Attachment, key: NetworkKey)
    ensures Summary(earlier + [last], key) == if last.key == key then Attach(Summary(earlier, key), last)
            else Summary(earlier, key)
    ensures forall a :: On(earlier + [last], key, a) <==> On(earlier, key, a) || (a == last && last.key == key)
  {
    assert (earlier + [last])[..|earlier|] == earlier;
  }

  /** A network is verified when some attached port sees the address of an attached port. */
  predicate Verified(acc: Acc) {
    acc.seen * acc.macs != {}
  }

  lemma VerifiedExactly(attachments: seq<Attachment>, key: NetworkKey)
    ensures Verified(Summary(attachments, key)) <==>
              exists m :: SeesMac(attachments, key, m) && HasMac(attachments, key, m)
  {
    SummaryExactly(attachments, key);
    var acc := Summary(attachments, key);
    if Verified(acc) {
      var m :| m in acc.seen * acc.macs;
      assert SeesMac(attachments, key, m) && HasMac(attachments, key, m);
    }
    forall m | SeesMac(attachments, key, m) && HasMac(attachments, key, m) ensures Verified(acc) {
      assert m in acc.seen * acc.macs;
    }
  }

  /** One port on the network lists, as a neighbour, the hardware address of a port on it, in whatever case. */
  predicate SeenOn(attachments: seq<Attachment>, key: NetworkKey) {
    exists a, b, mac :: && a in attachments && b in attachments && a.key == key && b.key == key
                        && mac in a.port.neighbors && b.port.mac.Some? && SameMac(mac, b.port.mac.value)
  }

  lemma VerifiedBySight(attachments: seq<Attachment>, key: NetworkKey)
    ensures Verified(Summary(attachments, key)) <==> SeenOn(attachments, key)
  {
    VerifiedExactly(attachments, key);
    if Verified(Summary(attachments, key)) {
      var m :| SeesMac(attachments, key, m) && HasMac(attachments, key, m);
      var a :| a in attachments && On(attachments, key, a) && m in NeighborMacs(a.port);
      var b :| b in attachments && On(attachments, key, b) && b.port.mac.Some? && Lower(b.port.mac.value) == m;
      var mac :| mac in a.port.neighbors && Lower(mac) == m;
      LowerExactly(mac, b.port.mac.value);
    }
    if SeenOn(attachments, key) {
      var a, b, mac :| && a in attachments && b in attachments && a.key == key && b.key == key
                       && mac in a.port.neighbors && b.port.mac.Some? && SameMac(mac, b.port.mac.value);
      LowerExactly(mac, b.port.mac.value);
      assert On(attachments, key, a) && On(attachments, key, b);
      assert Lower(mac) in NeighborMacs(a.port);
      assert SeesMac(attachments, key, Lower(mac)) && HasMac(attachments, key, Lower(mac));
    }
  }

  // ---- What is attached and linked ----

  /** A host reports an interface with an address on the network. */
  predicate Reports(rows: seq<Row>, target: string, key: NetworkKey, port: Interface) {
    exists row, c :: && row in rows && row.target == Some(target) && port in row.interfaces && c in port.addresses
                     && NetworkOf(port.vlan, c) == Some(key)
  }

  lemma {:induction false} PortAttached(target: string, port: Interface, addresses: seq<Cidr>, a: Attachment)
    ensures a in PortAttachments(target, port, addresses) <==>
              && a.target == target && a.port == port
              && exists c :: c in addresses && NetworkOf(port.vlan, c) == Some(a.key)
  {
    if addresses != [] {
      var n := |addresses| - 1;
      PortAttached(target, port, addresses[..n], a);
      assert addresses == addresses[..n] + [addresses[n]];
    }
  }

  predicate HostReports(target: string, ports: seq<Interface>, a: Attachment) {
    && a.target == target && a.port in ports
    && exists c :: c in a.port.addresses && NetworkOf(a.port.vlan, c) == Some(a.key)
  }

  lemma {:induction false} HostAttached(target: string, ports: seq<Interface>, a: Attachment)
    ensures a in HostAttachments(target, ports) <==> HostReports(target, ports, a)
  {
    if ports != [] {
      var n := |ports| - 1;
      HostAttached(target, ports[..n], a);
      PortAttached(target, ports[n], ports[n].addresses, a);
      assert ports == ports[..n] + [ports[n]];
    }
  }

  /** The attachments are exactly what the hosts report. */
  lemma {:induction false} AttachedExactly(rows: seq<Row>, a: Attachment)
    ensures a in Attachments(rows) <==> Reports(rows, a.target, a.key, a.port)
  {
    if rows != [] {
      var n := |rows| - 1;
      var last := rows[n];
      AttachedExactly(rows[..n], a);
      assert rows == rows[..n] + [last];
      if last.target.Some? {
        HostAttached(last.target.value, last.interfaces, a);
      }
    }
  }

  // ---- The graph ----

  datatype NodeId = Host(target: string) | Switch(digest: string) | Network(key: NetworkKey)

  datatype Node =
    | HostNode(target: string)
    | SwitchNode(digest: string)
    | NetworkNode(key: NetworkKey, memberCount: nat, speed: Option<nat>, verified: bool)

  function Id(n: Node): NodeId {
    match n
    case HostNode(target) => Host(target)
    case SwitchNode(digest) => Switch(digest)
    case NetworkNode(key, _, _, _) => Network(key)
  }

  datatype Edge = Edge(source: NodeId, target: NodeId, port: string)

  function Membership(a: Attachment): Edge {
    Edge(Host(a.target), Network(a.key), a.port.name)
  }

  function Memberships(attachments: seq<Attachment>): seq<Edge> {
    if attachments == [] then []
    else Memberships(attachments[..|attachments| - 1]) + [Membership(attachments[|attachments| - 1])]
  }

  lemma {:induction false} MembershipsOfConcat(a: seq<Attachment>, b: seq<Attachment>)
    ensures Memberships(a + b) == Memberships(a) + Memberships(b)
  {
    if b == [] {
      assert a + b == a;
    } else {
      var n := |b| - 1;
      assert (a + b)[..|a + b| - 1] == a + b[..n];
      MembershipsOfConcat(a, b[..n]);
    }
  }

  function NeighborEdges(target: string, lldp: seq<Neighbor>, digest: string -> string): seq<Edge> {
    if lldp == [] then []
    else
      var n := |lldp| - 1;
      NeighborEdges(target, lldp[..n], digest)
      + if lldp[n].identity.Some? then [Edge(Host(target), Switch(digest(lldp[n].identity.value)), lldp[n].port)]
        else []
  }

  /** The edges of the graph, row by row: memberships first, then switch links. */
  function AllEdges(rows: seq<Row>, digest: string -> string): seq<Edge> {
    if rows == [] then []
    else
      var n := |rows| - 1;
      AllEdges(rows[..n], digest) + RowEdges(rows[n], digest)
  }

  function RowEdges(row: Row, digest: string -> string): seq<Edge> {
    if row.target.None? then []
    else Memberships(HostAttachments(row.target.value, row.interfaces))
         + NeighborEdges(row.target.value, row.lldp, digest)
  }

  datatype Graph = Graph(nodes: seq<Node>, edges: seq<Edge>)

  predicate HasNode(nodes: seq<Node>, id: NodeId) {
    exists n :: n in nodes && Id(n) == id
  }

  /** The graph while rows are read: networks are still being accumulated. */
  datatype Draft = Draft(nodes: seq<Node>, edges: seq<Edge>, networks: map<NetworkKey, Acc>, switches: set<string>)

  predicate EdgeOk(d: Draft, attachments: seq<Attachment>, e: Edge) {
    && e.source.Host? && HasNode(d.nodes, e.source)
    && match e.target
       case Host(_) => false
       case Switch(digest) => digest in d.switches
       case Network(_) => exists a :: a in attachments && e == Membership(a)
  }

  predicate EdgesOk(d: Draft, attachments: seq<Attachment>) {
    forall e :: e in d.edges ==> EdgeOk(d, attachments, e)
  }

  predicate Drawn(d: Draft, a: Attachment) {
    Membership(a) in d.edges && a.key in d.networks
  }

  predicate AllDrawn(d: Draft, attachments: seq<Attachment>) {
    forall a :: a in attachments ==> Drawn(d, a)
  }

  predicate NetworkKept(d: Draft, attachments: seq<Attachment>, k: NetworkKey)
    requires k in d.networks
  {
    d.networks[k] == Summary(attachments, k) && exists a :: a in attachments && On(attachments, k, a)
  }

  predicate NetworksOk(d: Draft, attachments: seq<Attachment>) {
    forall k :: k in d.networks ==> NetworkKept(d, attachments, k)
  }

  ghost predicate NodesOk(d: Draft) {
    && (forall digest :: digest in d.switches <==> HasNode(d.nodes, Switch(digest)))
    && (forall n :: n in d.nodes ==> !n.NetworkNode?)
  }

  /** The draft tells exactly the attachments read so far. */
  ghost predicate Tells(d: Draft, attachments: seq<Attachment>) {
    EdgesOk(d, attachments) && AllDrawn(d, attachments) && NetworksOk(d, attachments) && NodesOk(d)
  }

  lemma {:induction false} SummaryOfNone(attachments: seq<Attachment>, key: NetworkKey)
    requires forall a :: a in attachments ==> a.key != key
    ensures Summary(attachments, key) == NOTHING
  {
    if attachments != [] {
      SummaryOfNone(attachments[..|attachments| - 1], key);
      assert attachments[|attachments| - 1] in attachments;
    }
  }

  function WithAttachment(d: Draft, a: Attachment): Draft {
    var acc := if a.key in d.networks then d.networks[a.key] else NOTHING;
    d.(edges := d.edges + [Membership(a)], networks := d.networks[a.key := Attach(acc, a)])
  }

  lemma AttachmentKeepsEdges(d: Draft, attachments: seq<Attachment>, a: Attachment)
    requires EdgesOk(d, attachments) && HasNode(d.nodes, Host(a.target))
    ensures EdgesOk(WithAttachment(d, a), attachments + [a])
  {
    var after, longer := WithAttachment(d, a), attachments + [a];
    forall e | e in after.edges ensures EdgeOk(after, longer, e) {
      if e in d.edges {
        assert EdgeOk(d, attachments, e);
      } else {
        assert a in longer && e == Membership(a);
      }
    }
  }

  lemma AttachmentKeepsDrawn(d: Draft, attachments: seq<Attachment>, a: Attachment)
    requires AllDrawn(d, attachments)
    ensures AllDrawn(WithAttachment(d, a), attachments + [a])
  {
    var after, longer := WithAttachment(d, a), attachments + [a];
    forall x | x in longer ensures Drawn(after, x) {
      if x in attachments {
        assert Drawn(d, x);
      }
    }
  }

  lemma AttachmentKeepsNetwork(d: Draft, attachments: seq<Attachment>, a: Attachment, k: NetworkKey)
    requires AllDrawn(d, attachments) && NetworksOk(d, attachments) && (k in d.networks || k == a.key)
    ensures NetworkKept(WithAttachment(d, a), attachments + [a], k)
  {
    var longer := attachments + [a];
    SummaryStep(attachments, a, k);
    if k !in d.networks {
      forall x | x in attachments ensures x.key != k { assert Drawn(d, x); }
      SummaryOfNone(attachments, k);
      assert a in longer && On(longer, k, a);
    } else {
      assert NetworkKept(d, attachments, k);
      var x :| x in attachments && On(attachments, k, x);
      assert x in longer && On(longer, k, x);
    }
  }

  lemma AttachmentKeeps(d: Draft, attachments: seq<Attachment>, a: Attachment, longer: seq<Attachment>)
    requires Tells(d, attachments) && HasNode(d.nodes, Host(a.target)) && longer == attachments + [a]
    ensures Tells(WithAttachment(d, a), longer)
  {
    AttachmentKeepsEdges(d, attachments, a);
    AttachmentKeepsDrawn(d, attachments, a);
    forall k | k in WithAttachment(d, a).networks ensures NetworkKept(WithAttachment(d, a), longer, k) {
      AttachmentKeepsNetwork(d, attachments, a, k);
    }
  }

  /** Further attachments have been drawn, and nothing else. */
  ghost predicate Drew(d0: Draft, d: Draft, before: seq<Attachment>, more: seq<Attachment>) {
    Tells(d, before + more) && d.nodes == d0.nodes && d.edges == d0.edges + Memberships(more)
  }

  lemma DrewNothing(d: Draft, before: seq<Attachment>)
    requires Tells(d, before)
    ensures Drew(d, d, before, [])
  {
    assert before + [] == before;
  }

  lemma DrewOneMore(d0: Draft, d: Draft, before: seq<Attachment>, more: seq<Attachment>, a: Attachment)
    requires Drew(d0, d, before, more) && HasNode(d0.nodes, Host(a.target))
    ensures Drew(d0, WithAttachment(d, a), before, more + [a])
  {
    Regrouped(before, more, a);
    AttachmentKeeps(d, before + more, a, before + (more + [a]));
    EdgesOneMore(d0, d, more, a);
  }

  lemma EdgesOneMore(d0: Draft, d: Draft, more: seq<Attachment>, a: Attachment)
    requires d.edges == d0.edges + Memberships(more)
    ensures WithAttachment(d, a).edges == d0.edges + Memberships(more + [a])
  {
    Regrouped([], more, a);
  }

  lemma Regrouped(before: seq<Attachment>, more: seq<Attachment>, a: Attachment)
    ensures before + more + [a] == before + (more + [a])
    ensures Memberships(more + [a]) == Memberships(more) + [Membership(a)]
  {
    assert (more + [a])[..|more|] == more;
  }

  lemma DrewBoth(d0: Draft, d1: Draft, d2: Draft, before: seq<Attachment>, one: seq<Attachment>, two: seq<Attachment>)
    requires Drew(d0, d1, before, one) && Drew(d1, d2, before + one, two)
    ensures Drew(d0, d2, before, one + two)
  {
    assert before + one + two == before + (one + two);
    MembershipsOfConcat(one, two);
  }

  /** The networks of one interface: the innermost loop of `build_topology_graph`. */
  method AddPort(d0: Draft, target: string, port: Interface, ghost before: seq<Attachment>) returns (d: Draft)
    requires Tells(d0, before) && HasNode(d0.nodes, Host(target))
    ensures Drew(d0, d, before, PortAttachments(target, port, port.addresses))
  {
    d := d0;
    DrewNothing(d, before);
    for i := 0 to |port.addresses|
      invariant Drew(d0, d, before, PortAttachments(target, port, port.addresses[..i]))
    {
      OneMoreAddress(target, port, port.addresses, i);
      var key := NetworkOf(port.vlan, port.addresses[i]);
      if key.Some? {
        var a := Attachment(target, key.value, port);
        DrewOneMore(d0, d, before, PortAttachments(target, port, port.addresses[..i]), a);
        d := WithAttachment(d, a);
      }
    }
    assert port.addresses[..|port.addresses|] == port.addresses;
  }

  lemma OneMoreAddress(target: string, port: Interface, addresses: seq<Cidr>, i: nat)
    requires i < |addresses|
    ensures var key, earlier := NetworkOf(port.vlan, addresses[i]), PortAttachments(target, port, addresses[..i]);
            PortAttachments(target, port, addresses[..i + 1]) ==
              if key.Some? then earlier + [Attachment(target, key.value, port)] else earlier
  {
    assert addresses[..i + 1][..i] == addresses[..i];
  }

  method AddPorts(d0: Draft, target: string, ports: seq<Interface>, ghost before: seq<Attachment>) returns (d: Draft)
    requires Tells(d0, before) && HasNode(d0.nodes, Host(target))
    ensures Drew(d0, d, before, HostAttachments(target, ports))
  {
    d := d0;
    DrewNothing(d, before);
    for i := 0 to |ports|
      invariant Drew(d0, d, before, HostAttachments(target, ports[..i]))
    {
      assert ports[..i + 1][..i] == ports[..i];
      ghost var done, next :=
        HostAttachments(target, ports[..i]), PortAttachments(target, ports[i], ports[i].addresses);
      var drawn := AddPort(d, target, ports[i], before + done);
      DrewBoth(d0, d, drawn, before, done, next);
      d := drawn;
    }
    assert ports[..|ports|] == ports;
  }

  function WithNeighbor(d: Draft, target: string, digest: string, port: string): Draft {
    d.(nodes := if digest in d.switches then d.nodes else d.nodes + [SwitchNode(digest)],
       switches := d.switches + {digest},
       edges := d.edges + [Edge(Host(target), Switch(digest), port)])
  }

  lemma NodesStay(a: seq<Node>, b: seq<Node>, id: NodeId)
    requires a <= b && HasNode(a, id)
    ensures HasNode(b, id)
  {
    var n :| n in a && Id(n) == id;
    assert n in b;
  }

  lemma HasAppended(nodes: seq<Node>, n: Node, id: NodeId)
    ensures HasNode(nodes + [n], id) <==> HasNode(nodes, id) || Id(n) == id
  {
    assert n in nodes + [n];
    if HasNode(nodes, id) {
      NodesStay(nodes, nodes + [n], id);
    }
  }

  lemma EdgesStay(d: Draft, after: Draft, attachments: seq<Attachment>, e: Edge)
    requires d.nodes <= after.nodes && d.switches <= after.switches && EdgeOk(d, attachments, e)
    ensures EdgeOk(after, attachments, e)
  {
    NodesStay(d.nodes, after.nodes, e.source);
  }

  lemma NeighborKeeps(d: Draft, attachments: seq<Attachment>, target: string, digest: string, port: string)
    requires Tells(d, attachments) && HasNode(d.nodes, Host(target))
    ensures Tells(WithNeighbor(d, target, digest, port), attachments)
    ensures HasNode(WithNeighbor(d, target, digest, port).nodes, Host(target))
  {
    var after := WithNeighbor(d, target, digest, port);
    NodesStay(d.nodes, after.nodes, Host(target));
    forall e | e in after.edges ensures EdgeOk(after, attachments, e) {
      if e in d.edges {
        EdgesStay(d, after, attachments, e);
      }
    }
    SameNetworks(d, after, attachments);
    forall x ensures x in after.switches <==> HasNode(after.nodes, Switch(x)) {
      HasAppended(d.nodes, SwitchNode(digest), Switch(x));
    }
  }

  lemma SameNetworks(d: Draft, after: Draft, attachments: seq<Attachment>)
    requires AllDrawn(d, attachments) && NetworksOk(d, attachments) && d.edges <= after.edges
    requires d.networks == after.networks
    ensures AllDrawn(after, attachments) && NetworksOk(after, attachments)
  {
    forall a | a in attachments ensures Drawn(after, a) { assert Drawn(d, a); }
    forall k | k in after.networks ensures NetworkKept(after, attachments, k) { assert NetworkKept(d, attachments, k); }
  }

  method AddNeighbors(d0: Draft, target: string, lldp: seq<Neighbor>, digest: string -> string,
                      ghost before: seq<Attachment>)
    returns (d: Draft)
    requires Tells(d0, before) && HasNode(d0.nodes, Host(target))
    ensures Tells(d, before) && d0.nodes <= d.nodes
    ensures d.edges == d0.edges + NeighborEdges(target, lldp, digest)
  {
    d := d0;
    for i := 0 to |lldp|
      invariant Tells(d, before) && HasNode(d.nodes, Host(target)) && d0.nodes <= d.nodes
      invariant d.edges == d0.edges + NeighborEdges(target, lldp[..i], digest)
    {
      assert lldp[..i + 1][..i] == lldp[..i];
      if lldp[i].identity.Some? {
        NeighborKeeps(d, before, target, digest(lldp[i].identity.value), lldp[i].port);
        d := WithNeighbor(d, target, digest(lldp[i].identity.value), lldp[i].port);
      }
    }
    assert lldp[..|lldp|] == lldp;
  }

  lemma HostKeeps(d: Draft, attachments: seq<Attachment>, target: string)
    requires Tells(d, attachments)
    ensures var after := d.(nodes := d.nodes + [HostNode(target)]);
            Tells(after, attachments) && HasNode(after.nodes, Host(target))
  {
    var after := d.(nodes := d.nodes + [HostNode(target)]);
    forall e | e in after.edges ensures EdgeOk(after, attachments, e) {
      EdgesStay(d, after, attachments, e);
    }
    SameNetworks(d, after, attachments);
    forall x ensures x in after.switches <==> HasNode(after.nodes, Switch(x)) {
      HasAppended(d.nodes, HostNode(target), Switch(x));
    }
    HasAppended(d.nodes, HostNode(target), Host(target));
  }

  /** No two nodes stand for the same network. */
  predicate NodesUnique(nodes: seq<Node>) {
    forall i, j :: 0 <= i < j < |nodes| && nodes[j].NetworkNode? ==> Id(nodes[i]) != Id(nodes[j])
  }

  /** What a finished graph promises about the attachments it was built from. */
  ghost predicate GraphOk(g: Graph, attachments: seq<Attachment>) {
    && (forall e :: e in g.edges ==> HasNode(g.nodes, e.source) && HasNode(g.nodes, e.target))
    && (forall e :: e in g.edges && e.target.Network? <==> exists a :: a in attachments && e == Membership(a))
    && (forall n :: n in g.nodes && n.NetworkNode? ==> NetworkOk(g, attachments, n))
    && NodesUnique(g.nodes)
  }

  /** The hosts with a membership edge to a network. */
  function HostsOn(edges: seq<Edge>, key: NetworkKey): set<string> {
    set e | e in edges && e.source.Host? && e.target == Network(key) :: e.source.target
  }

  ghost predicate NetworkOk(g: Graph, attachments: seq<Attachment>, n: Node)
    requires n.NetworkNode?
  {
    && n.memberCount == |HostsOn(g.edges, n.key)| > 0
    && (n.verified <==> SeenOn(attachments, n.key))
    && LargestSpeed(attachments, n.key, n.speed)
  }

  /** The hosts with an edge to a network are the accumulated members. */
  lemma HostsOnAreMembers(d: Draft, attachments: seq<Attachment>, key: NetworkKey)
    requires EdgesOk(d, attachments) && AllDrawn(d, attachments)
    ensures HostsOn(d.edges, key) == Summary(attachments, key).members
  {
    SummaryExactly(attachments, key);
    forall t ensures t in HostsOn(d.edges, key) <==> HasMember(attachments, key, t) {
      if t in HostsOn(d.edges, key) {
        var e :| e in d.edges && e.source.Host? && e.target == Network(key) && e.source.target == t;
        assert EdgeOk(d, attachments, e);
        var a :| a in attachments && e == Membership(a);
        assert On(attachments, key, a);
      }
      if HasMember(attachments, key, t) {
        var a :| a in attachments && On(attachments, key, a) && a.target == t;
        assert Drawn(d, a);
        assert Membership(a).source.target == t;
      }
    }
  }

  function NodeOf(key: NetworkKey, acc: Acc): Node {
    NetworkNode(key, |acc.members|, acc.speed, Verified(acc))
  }

  lemma NetworkNodeOk(d: Draft, attachments: seq<Attachment>, g: Graph, key: NetworkKey)
    requires Tells(d, attachments) && key in d.networks && g.edges == d.edges
    ensures NetworkOk(g, attachments, NodeOf(key, d.networks[key]))
  {
    HostsOnAreMembers(d, attachments, key);
    VerifiedBySight(attachments, key);
    SpeedIsLargest(attachments, key);
    HasSomeMember(d, attachments, key);
  }

  lemma HasSomeMember(d: Draft, attachments: seq<Attachment>, key: NetworkKey)
    requires NetworksOk(d, attachments) && key in d.networks
    ensures d.networks[key] == Summary(attachments, key) && |d.networks[key].members| > 0
  {
    SummaryExactly(attachments, key);
    assert NetworkKept(d, attachments, key);
    var a :| a in attachments && On(attachments, key, a);
    assert HasMember(attachments, key, a.target);
    assert a.target in Summary(attachments, key).members;
  }


  /** One node for each network except those still to come. */
  predicate Emitted(networks: map<NetworkKey, Acc>, keys: set<NetworkKey>, nodes: seq<Node>) {
    && NodesUnique(nodes)
    && (forall n :: n in nodes && n.NetworkNode? ==> n.key in networks && n.key !in keys && n == NodeOf(n.key,
                                                                                networks[n.key]))
    && (forall k :: k in networks && k !in keys ==> NodeOf(k, networks[k]) in nodes)
  }

  lemma EmittedOneMore(networks: map<NetworkKey, Acc>, keys: set<NetworkKey>, nodes: seq<Node>, k: NetworkKey)
    requires Emitted(networks, keys, nodes) && k in keys && k in networks
    ensures Emitted(networks, keys - {k}, nodes + [NodeOf(k, networks[k])])
  {
    UniqueWith(nodes, NodeOf(k, networks[k]));
  }

  lemma UniqueWith(nodes: seq<Node>, node: Node)
    requires NodesUnique(nodes) && forall n :: n in nodes ==> Id(n) != Id(node)
    ensures NodesUnique(nodes + [node])
  {
  }

  /** Once all rows are read: one node for each accumulated network. Their order does not matter here. */
  method AddNetworks(d: Draft, ghost attachments: seq<Attachment>) returns (g: Graph)
    requires Tells(d, attachments)
    ensures GraphOk(g, attachments) && g.edges == d.edges && d.nodes <= g.nodes
  {
    var nodes, keys := d.nodes, d.networks.Keys;
    while keys != {}
      invariant keys <= d.networks.Keys && d.nodes <= nodes && Emitted(d.networks, keys, nodes)
      decreases keys
    {
      assert (forall k :: k !in keys) ==> keys == {};
      var k :| k in keys;
      EmittedOneMore(d.networks, keys, nodes, k);
      nodes := nodes + [NodeOf(k, d.networks[k])];
      keys := keys - {k};
    }
    g := Graph(nodes, d.edges);
    FinishedGraphOk(d, attachments, g);
  }

  lemma FinishedGraphOk(d: Draft, attachments: seq<Attachment>, g: Graph)
    requires Tells(d, attachments) && g.edges == d.edges && d.nodes <= g.nodes && NodesUnique(g.nodes)
    requires forall n :: n in g.nodes && n.NetworkNode? ==> n.key in d.networks && n == NodeOf(n.key, d.networks[n.key])
    requires forall k :: k in d.networks ==> NodeOf(k, d.networks[k]) in g.nodes
    ensures GraphOk(g, attachments)
  {
    forall e | e in g.edges ensures HasNode(g.nodes, e.source) && HasNode(g.nodes, e.target) {
      assert EdgeOk(d, attachments, e);
      NodesStay(d.nodes, g.nodes, e.source);
      EdgeTargetExists(d, attachments, g, e);
    }
    forall e ensures e in g.edges && e.target.Network? <==> exists a :: a in attachments && e == Membership(a) {
      if e in g.edges {
        assert EdgeOk(d, attachments, e);
      }
      forall a | a in attachments && e == Membership(a) ensures e in g.edges { assert Drawn(d, a); }
    }
    forall n | n in g.nodes && n.NetworkNode? ensures NetworkOk(g, attachments, n) {
      NetworkNodeOk(d, attachments, g, n.key);
    }
  }

  lemma EdgeTargetExists(d: Draft, attachments: seq<Attachment>, g: Graph, e: Edge)
    requires Tells(d, attachments) && d.nodes <= g.nodes && e in d.edges
    requires forall k :: k in d.networks ==> NodeOf(k, d.networks[k]) in g.nodes
    ensures HasNode(g.nodes, e.target)
  {
    assert EdgeOk(d, attachments, e);
    if e.target.Switch? {
      NodesStay(d.nodes, g.nodes, e.target);
    } else {
      var a :| a in attachments && e == Membership(a);
      assert Drawn(d, a);
      assert Id(NodeOf(a.key, d.networks[a.key])) == e.target;
    }
  }

  predicate HostsShown(nodes: seq<Node>, rows: seq<Row>) {
    forall row :: row in rows && row.target.Some? ==> HostNode(row.target.value) in nodes
  }

  /** The draft after some rows. */
  ghost predicate Reading(d: Draft, rows: seq<Row>, digest: string -> string) {
    Tells(d, Attachments(rows)) && d.edges == AllEdges(rows, digest) && HostsShown(d.nodes, rows)
  }

  lemma OneMoreRow(rows: seq<Row>, row: Row, digest: string -> string)
    ensures Attachments(rows + [row]) ==
            if row.target.Some? then Attachments(rows) + HostAttachments(row.target.value, row.interfaces)
              else Attachments(rows)
    ensures AllEdges(rows + [row], digest) ==
            if row.target.None? then AllEdges(rows, digest)
            else AllEdges(rows, digest)
                 + (Memberships(HostAttachments(row.target.value, row.interfaces)) + NeighborEdges(row.target.value,
                                                                                row.lldp, digest))
  {
    assert (rows + [row])[..|rows|] == rows;
  }

  /** An edge that the hosts report: from a host to a network one of its interfaces is on, named after the interface,
      or to a switch it has identified, named after the port it was seen on. */
  predicate ReportedEdge(rows: seq<Row>, digest: string -> string, e: Edge) {
    exists row :: row in rows && row.target.Some? && HostEdge(row.target.value, row, digest, e)
  }

  predicate HostEdge(target: string, row: Row, digest: string -> string, e: Edge) {
    && e.source == Host(target)
    && (|| (exists port :: && port in row.interfaces && e.port == port.name
                           && exists c :: c in port.addresses && NetworkOf(port.vlan, c).Some?
                                          && e.target == Network(NetworkOf(port.vlan, c).value))
        || (exists l :: && l in row.lldp && l.identity.Some? && e.port == l.port
                        && e.target == Switch(digest(l.identity.value))))
  }

  lemma {:induction false} MembershipListed(attachments: seq<Attachment>, e: Edge)
    ensures e in Memberships(attachments) <==> exists a :: a in attachments && e == Membership(a)
  {
    if attachments != [] {
      var n := |attachments| - 1;
      MembershipListed(attachments[..n], e);
      assert attachments == attachments[..n] + [attachments[n]];
    }
  }

  lemma {:induction false} NeighborListed(target: string, lldp: seq<Neighbor>, digest: string -> string, e: Edge)
    ensures e in NeighborEdges(target, lldp, digest) <==>
              exists l :: l in lldp && l.identity.Some?
                          && e == Edge(Host(target), Switch(digest(l.identity.value)), l.port)
  {
    if lldp != [] {
      var n := |lldp| - 1;
      NeighborListed(target, lldp[..n], digest, e);
      assert lldp == lldp[..n] + [lldp[n]];
    }
  }

  lemma HostEdgeListed(target: string, row: Row, digest: string -> string, e: Edge)
    ensures HostEdge(target, row, digest, e) <==>
              || e in Memberships(HostAttachments(target, row.interfaces))
              || e in NeighborEdges(target, row.lldp, digest)
  {
    MembershipListed(HostAttachments(target, row.interfaces), e);
    NeighborListed(target, row.lldp, digest, e);
    forall a ensures a in HostAttachments(target, row.interfaces) <==> HostReports(target, row.interfaces, a) {
      HostAttached(target, row.interfaces, a);
    }
    if HostEdge(target, row, digest, e) && e.target.Network? {
      var port :| && port in row.interfaces && e.port == port.name
                  && exists c :: c in port.addresses && NetworkOf(port.vlan, c).Some?
                                 && e.target == Network(NetworkOf(port.vlan, c).value);
      assert HostReports(target, row.interfaces, Attachment(target, e.target.key, port));
    }
  }

  lemma {:induction false} EdgesDrawn(rows: seq<Row>, digest: string -> string, e: Edge)
    ensures e in AllEdges(rows, digest) <==> exists row :: row in rows && e in RowEdges(row, digest)
  {
    if rows != [] {
      var n := |rows| - 1;
      EdgesDrawn(rows[..n], digest, e);
      assert rows == rows[..n] + [rows[n]];
      assert AllEdges(rows, digest) == AllEdges(rows[..n], digest) + RowEdges(rows[n], digest);
    }
  }

  /** The edges of the graph are exactly the reported ones. */
  lemma EdgesExactly(rows: seq<Row>, digest: string -> string, e: Edge)
    ensures e in AllEdges(rows, digest) <==> ReportedEdge(rows, digest, e)
  {
    EdgesDrawn(rows, digest, e);
    if e in AllEdges(rows, digest) {
      var row :| row in rows && e in RowEdges(row, digest);
      HostEdgeListed(row.target.value, row, digest, e);
    }
    if ReportedEdge(rows, digest, e) {
      var row :| row in rows && row.target.Some? && HostEdge(row.target.value, row, digest, e);
      HostEdgeListed(row.target.value, row, digest, e);
      assert e in RowEdges(row, digest);
    }
  }

  /** `build_topology_graph`. */
  method BuildTopologyGraph(rows: seq<Row>, digest: string -> string) returns (g: Graph)
    ensures GraphOk(g, Attachments(rows))
    ensures forall e :: e in g.edges <==> ReportedEdge(rows, digest, e)
    ensures g.edges == AllEdges(rows, digest)
    ensures HostsShown(g.nodes, rows)
  {
    var d := Draft([], [], map[], {});
    for i := 0 to |rows|
      invariant Reading(d, rows[..i], digest)
    {
      d := ReadRow(d, rows[i], digest, rows[..i]);
      assert rows[..i + 1] == rows[..i] + [rows[i]];
    }
    assert rows[..|rows|] == rows;
    g := AddNetworks(d, Attachments(rows));
    forall e ensures e in g.edges <==> ReportedEdge(rows, digest, e) {
      EdgesExactly(rows, digest, e);
    }
  }

  method ReadRow(d0: Draft, row: Row, digest: string -> string, ghost done: seq<Row>) returns (d: Draft)
    requires Reading(d0, done, digest)
    ensures Reading(d, done + [row], digest)
  {
    d := d0;
    OneMoreRow(done, row, digest);
    if row.target.Some? {
      d := AddRow(d0, row.target.value, row, digest, Attachments(done));
    }
  }

  method AddRow(d0: Draft, target: string, row: Row, digest: string -> string,
                ghost before: seq<Attachment>) returns (d: Draft)
    requires Tells(d0, before)
    ensures Tells(d, before + HostAttachments(target, row.interfaces))
    ensures d.edges ==
            d0.edges + (Memberships(HostAttachments(target, row.interfaces)) + NeighborEdges(target, row.lldp, digest))
    ensures d0.nodes <= d.nodes && HostNode(target) in d.nodes
  {
    HostKeeps(d0, before, target);
    d := d0.(nodes := d0.nodes + [HostNode(target)]);
    assert HostNode(target) in d.nodes;
    d := AddPorts(d, target, row.interfaces, before);
    d := AddNeighbors(d, target, row.lldp, digest, before + HostAttachments(target, row.interfaces));
  }
}
