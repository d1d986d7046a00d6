/**
 * The process-wide session record shared by the control channel, the node
 * directory and the tunnel engine (`Settings` in internal/meshrouter/meshrouter.go
 * and its twin internal/meshcentral/config.go), the device snapshot, and the
 * node-directory response handling (`handleNodesCommand`, identical in
 * internal/meshrouter/meshrouter.go and internal/meshcentral/devices.go).
 */
module Session {
  import opened Wrappers

  /** One managed node as reported by a `nodes` response. */
  datatype Device = Device(id: string, name: string, os: string, ip: string, icon: int, conn: int, pwr: int)

  /**
   * One node record of a `nodes` response after JSON decoding: a field that is
   * absent (or JSON null) is None. Numbers are taken as already converted to
   * integers.
   */
  datatype NodeRecord = NodeRecord(
    id: Option<string>, name: Option<string>, rname: Option<string>,
    osdesc: Option<string>, ip: Option<string>,
    icon: Option<int>, conn: Option<int>, pwr: Option<int>)

  /** One entry of the `nodes` object: a device group and its list of records. */
  datatype NodeGroup = NodeGroup(mesh: string, records: seq<NodeRecord>)

  /**
   * The session record. `renewTimers` counts the cookie-renewal timers that
   * are armed and have not fired; `connected` says whether the control
   * connection handle is set.
   */
  datatype Settings = Settings(
    serverUrl: string, username: string, password: string,
    token: string, emailToken: bool, smsToken: bool,
    authCookie: string, serverId: string, loginKey: string,
    localPort: int, remotePort: int, remoteTarget: string, remoteNodeId: string,
    connected: bool,
    aCookie: string, rCookie: string, renewTimers: nat,
    serverAuthClientNonce: string, meshServerTlsHash: string, serverHttpsHash: string,
    devices: seq<Device>, deviceQueryState: int,
    debug: bool)

  /** The query-state values of the directory: no query outstanding, or one pending. */
  const Idle: int := 0
  const Pending: int := 1

  /**
   * ApplySettings: the five tunnel parameters are set from the arguments and
   * every other field keeps its value.
   */
  function ApplySettings(s: Settings, remoteNodeId: string, remotePort: int, localPort: int,
                         remoteTarget: string, debug: bool): (r: Settings)
    ensures r.remoteNodeId == remoteNodeId && r.remotePort == remotePort && r.localPort == localPort
    ensures r.remoteTarget == remoteTarget && r.debug == debug
    ensures r.(remoteNodeId := s.remoteNodeId, remotePort := s.remotePort, localPort := s.localPort,
               remoteTarget := s.remoteTarget, debug := s.debug) == s
  {
    s.(remoteNodeId := remoteNodeId, remotePort := remotePort, localPort := localPort,
       remoteTarget := remoteTarget, debug := debug)
  }

  /** Applying the same arguments twice is applying them once. */
  lemma ApplySettingsIdempotent(s: Settings, id: string, rp: int, lp: int, t: string, d: bool)
    ensures ApplySettings(ApplySettings(s, id, rp, lp, t, d), id, rp, lp, t, d) == ApplySettings(s, id, rp, lp, t, d)
  {
  }

  /** A second call fully overrides the five fields the first one set. */
  lemma ApplySettingsLastWins(s: Settings, id1: string, rp1: int, lp1: int, t1: string, d1: bool,
                              id2: string, rp2: int, lp2: int, t2: string, d2: bool)
    ensures ApplySettings(ApplySettings(s, id1, rp1, lp1, t1, d1), id2, rp2, lp2, t2, d2)
         == ApplySettings(s, id2, rp2, lp2, t2, d2)
  {
  }

  /** A record the handler can turn into a Device: `_id`, `rname` and `icon` are present. */
  predicate Complete(r: NodeRecord) {
    r.id.Some? && r.rname.Some? && r.icon.Some?
  }

  /**
   * One record normalised into a Device: absent `osdesc` and `ip` read as "",
   * absent `conn` and `pwr` as 0. `_id`, `rname` and `icon` have no default;
   * without one of them the type assertion fails (None here). The display name
   * comes from `rname`; the default the handler gives to `name` is never read.
   */
  function Normalise(r: NodeRecord): (d: Option<Device>)
    ensures d.Some? <==> Complete(r)
    ensures d.Some? ==> d.value.id == r.id.value && d.value.name == r.rname.value && d.value.icon == r.icon.value
    ensures d.Some? ==> d.value.os == r.osdesc.GetOr("") && d.value.ip == r.ip.GetOr("")
    ensures d.Some? ==> d.value.conn == r.conn.GetOr(0) && d.value.pwr == r.pwr.GetOr(0)
  {
    if !Complete(r) then None
    else Some(Device(r.id.value, r.rname.value, r.osdesc.GetOr(""), r.ip.GetOr(""),
                     r.icon.value, r.conn.GetOr(0), r.pwr.GetOr(0)))
  }

  /** The `name` field of a record never reaches its Device. */
  lemma NameIsIgnored(r: NodeRecord, n: Option<string>)
    ensures Normalise(r.(name := n)) == Normalise(r)
  {
  }

  /** Number of records over all groups. */
  function TotalRecords(groups: seq<NodeGroup>): nat {
    if groups == [] then 0 else |groups[0].records| + TotalRecords(groups[1..])
  }

  predicate AllComplete(groups: seq<NodeGroup>) {
    forall g, j :: 0 <= g < |groups| && 0 <= j < |groups[g].records| ==> Complete(groups[g].records[j])
  }

  /** The Devices of one group's records, in list order; None if one record is incomplete. */
  function NormaliseAll(records: seq<NodeRecord>): (r: Option<seq<Device>>)
    ensures r.Some? <==> forall j :: 0 <= j < |records| ==> Complete(records[j])
    ensures r.Some? ==> |r.value| == |records|
    ensures r.Some? ==> forall j :: 0 <= j < |records| ==> Normalise(records[j]) == Some(r.value[j])
  {
    if records == [] then Some([])
    else
      match (Normalise(records[0]), NormaliseAll(records[1..]))
      case (Some(d), Some(ds)) =>
        assert forall j :: 1 <= j < |records| ==> records[j] == records[1..][j - 1];
        Some([d] + ds)
      case (None, _) =>
        None
      case (_, None) =>
        assert exists j :: 0 <= j < |records[1..]| && !Complete(records[1..][j]);
        None
  }

  /**
   * The device list a `nodes` response yields when its groups are visited in
   * the order given: group after group, records in list order. None when some
   * record is incomplete: the handler stops with a failed type assertion and
   * stores nothing.
   */
  function Flatten(groups: seq<NodeGroup>): (r: Option<seq<Device>>)
    ensures r.Some? ==> |r.value| == TotalRecords(groups)
  {
    if groups == [] then Some([])
    else
      var head, tail := NormaliseAll(groups[0].records), Flatten(groups[1..]);
      if head.Some? && tail.Some? then Some(head.value + tail.value) else None
  }

  /** The handler stores a list exactly when every record is complete. */
  lemma {:induction false} FlattenDefinedIff(groups: seq<NodeGroup>)
    ensures Flatten(groups).Some? <==> AllComplete(groups)
  {
    if groups != [] {
      FlattenDefinedIff(groups[1..]);
      assert forall g :: 1 <= g < |groups| ==> groups[g] == groups[1..][g - 1];
      if !AllComplete(groups[1..]) {
        var g, j :| 0 <= g < |groups[1..]| && 0 <= j < |groups[1..][g].records| &&
                    !Complete(groups[1..][g].records[j]);
        assert !Complete(groups[g + 1].records[j]);
      }
    }
  }

  /** Where group `g` starts in the flattened list. */
  function Offset(groups: seq<NodeGroup>, g: nat): nat
    requires g <= |groups|
  {
    TotalRecords(groups[..g])
  }

  /**
   * Record `j` of group `g` lands at `Offset(groups, g) + j`: records keep
   * their list order and groups are laid out one after another.
   */
  lemma FlattenAt(groups: seq<NodeGroup>, g: nat, j: nat)
    requires AllComplete(groups)
    requires g < |groups| && j < |groups[g].records|
    ensures Flatten(groups).Some? && Offset(groups, g) + j < |Flatten(groups).value|
    ensures Flatten(groups).value[Offset(groups, g) + j] == Normalise(groups[g].records[j]).value
  {
    FlattenDefinedIff(groups);
    var front, back := groups[..g], groups[g..];
    assert groups == front + back;
    assert back[0] == groups[g];
    FlattenAppend(front, back);
    FlattenCons(back);
    var h := NormaliseAll(groups[g].records);
    assert h.Some? && j < |h.value| && Normalise(groups[g].records[j]) == Some(h.value[j]);
    PickMiddle(Flatten(groups), Flatten(front), h, Flatten(back[1..]), Flatten(back), j);
  }

  /** In `front ++ (middle ++ rest)`, entry `j` of the middle sits `j` places after the front. */
  lemma PickMiddle(whole: Option<seq<Device>>, front: Option<seq<Device>>, middle: Option<seq<Device>>,
                   rest: Option<seq<Device>>, back: Option<seq<Device>>, j: nat)
    requires whole.Some? && (whole.Some? <==> front.Some? && back.Some?)
    requires whole.Some? ==> whole.value == front.value + back.value
    requires back == if middle.Some? && rest.Some? then Some(middle.value + rest.value) else None
    requires middle.Some? && j < |middle.value|
    ensures |front.value| + j < |whole.value| && whole.value[|front.value| + j] == middle.value[j]
  {
    assert whole.value == front.value + (middle.value + rest.value);
  }

  /** One unfolding of `Flatten`: the first group's devices, then the rest. */
  lemma FlattenCons(groups: seq<NodeGroup>)
    requires groups != []
    ensures var h, t := NormaliseAll(groups[0].records), Flatten(groups[1..]);
      Flatten(groups) == if h.Some? && t.Some? then Some(h.value + t.value) else None
  {
  }

  lemma {:induction false} FlattenAppend(a: seq<NodeGroup>, b: seq<NodeGroup>)
    ensures Flatten(a + b).Some? <==> Flatten(a).Some? && Flatten(b).Some?
    ensures Flatten(a + b).Some? ==> Flatten(a + b).value == Flatten(a).value + Flatten(b).value
  {
    if a == [] {
      assert a + b == b;
    } else {
      FlattenAppend(a[1..], b);
      assert (a + b)[0] == a[0];
      assert (a + b)[1..] == a[1..] + b;
      FlattenCons(a + b);
      FlattenCons(a);
      JoinAssoc(NormaliseAll(a[0].records), Flatten(a[1..]), Flatten(b), Flatten(a[1..] + b));
    }
  }

  /** Prepending one group's devices commutes with appending the devices of later groups. */
  lemma JoinAssoc(h: Option<seq<Device>>, p: Option<seq<Device>>, q: Option<seq<Device>>, pq: Option<seq<Device>>)
    requires pq.Some? <==> p.Some? && q.Some?
    requires pq.Some? ==> pq.value == p.value + q.value
    ensures var whole := if h.Some? && pq.Some? then Some(h.value + pq.value) else None;
      var front := if h.Some? && p.Some? then Some(h.value + p.value) else None;
      (whole.Some? <==> front.Some? && q.Some?) && (whole.Some? ==> whole.value == front.value + q.value)
  {
    if h.Some? && pq.Some? {
      assert h.value + (p.value + q.value) == (h.value + p.value) + q.value;
    }
  }

  /**
   * Group order only permutes the result: visiting the same groups in any two
   * orders (the runtime's map order is unspecified) fails on the same inputs
   * and otherwise yields the same devices, as a multiset.
   */
  lemma {:induction false} FlattenOrderIrrelevant(a: seq<NodeGroup>, b: seq<NodeGroup>)
    requires multiset(a) == multiset(b)
    ensures Flatten(a).Some? <==> Flatten(b).Some?
    ensures Flatten(a).Some? ==> multiset(Flatten(a).value) == multiset(Flatten(b).value)
  {
    if a == [] {
      assert |b| == |multiset(b)| == 0;
    } else {
      var x := a[0];
      assert x in multiset(b);
      var k :| 0 <= k < |b| && b[k] == x;
      var rest := b[..k] + b[k + 1..];
      RemoveSame(a, b, k);
      FlattenOrderIrrelevant(a[1..], rest);
      SplitAround(b, k);
      FlattenMoveToFront(b[..k], x, b[k + 1..]);
      assert a == [x] + a[1..];
      FlattenConsSame(x, a[1..], rest);
    }
  }

  /** Moving one group to the front changes the flattened list only up to permutation. */
  lemma FlattenMoveToFront(front: seq<NodeGroup>, x: NodeGroup, back: seq<NodeGroup>)
    ensures Flatten(front + ([x] + back)).Some? <==> Flatten([x] + (front + back)).Some?
    ensures Flatten(front + ([x] + back)).Some? ==>
      multiset(Flatten(front + ([x] + back)).value) == multiset(Flatten([x] + (front + back)).value)
  {
    FlattenAppend(front, [x] + back);
    FlattenAppend([x], back);
    FlattenAppend(front, back);
    FlattenAppend([x], front + back);
    if Flatten(front + ([x] + back)).Some? {
      var fx, ff, fb := Flatten([x]).value, Flatten(front).value, Flatten(back).value;
      calc {
        multiset(Flatten(front + ([x] + back)).value);
        multiset(ff + (fx + fb));
        multiset(fx + (ff + fb));
        multiset(Flatten([x] + (front + back)).value);
      }
    }
  }

  /** The same first group in front of two lists with equally many devices of each kind. */
  lemma FlattenConsSame(x: NodeGroup, p: seq<NodeGroup>, q: seq<NodeGroup>)
    requires Flatten(p).Some? <==> Flatten(q).Some?
    requires Flatten(p).Some? ==> multiset(Flatten(p).value) == multiset(Flatten(q).value)
    ensures Flatten([x] + p).Some? <==> Flatten([x] + q).Some?
    ensures Flatten([x] + p).Some? ==> multiset(Flatten([x] + p).value) == multiset(Flatten([x] + q).value)
  {
    FlattenAppend([x], p);
    FlattenAppend([x], q);
  }

  /** Taking the same element out of two lists with equal multisets leaves equal multisets. */
  lemma RemoveSame<T>(a: seq<T>, b: seq<T>, k: nat)
    requires multiset(a) == multiset(b) && a != [] && k < |b| && b[k] == a[0]
    ensures multiset(a[1..]) == multiset(b[..k] + b[k + 1..])
  {
    assert a == [a[0]] + a[1..];
    SplitAround(b, k);
    assert multiset(a[1..]) == multiset(a) - multiset{a[0]};
    assert multiset(b[..k] + b[k + 1..]) == multiset(b) - multiset{a[0]};
  }

  lemma SplitAround<T>(s: seq<T>, k: nat)
    requires k < |s|
    ensures s == s[..k] + ([s[k]] + s[k + 1..])
  {
  }

  /** Extending a group's records by one complete record extends its devices by that record's device. */
  lemma NormaliseAllSnoc(records: seq<NodeRecord>, j: nat)
    requires j < |records|
    requires NormaliseAll(records[..j]).Some? && Normalise(records[j]).Some?
    ensures NormaliseAll(records[..j + 1]) == Some(NormaliseAll(records[..j]).value + [Normalise(records[j]).value])
  {
    var front, x := records[..j], records[j];
    var v := NormaliseAll(front).value + [Normalise(x).value];
    assert forall k :: 0 <= k < j ==> records[..j + 1][k] == front[k];
    assert records[..j + 1][j] == x;
    var w := NormaliseAll(records[..j + 1]);
    assert w.Some?;
    assert |w.value| == |v|;
    forall k | 0 <= k < |v|
      ensures w.value[k] == v[k]
    {
      assert Normalise(records[..j + 1][k]) == Some(w.value[k]);
      if k < j {
        assert Normalise(front[k]) == Some(NormaliseAll(front).value[k]);
      }
    }
    assert w.value == v;
  }

  /** Adding the next group to a flattened prefix appends that group's devices. */
  lemma FlattenSnoc(groups: seq<NodeGroup>, g: nat, before: seq<Device>, mid: seq<Device>)
    requires g < |groups|
    requires Flatten(groups[..g]) == Some(before) && NormaliseAll(groups[g].records) == Some(mid)
    ensures Flatten(groups[..g + 1]) == Some(before + mid)
  {
    assert groups[..g + 1] == groups[..g] + [groups[g]];
    FlattenAppend(groups[..g], [groups[g]]);
    assert [groups[g]][1..] == [];
    assert mid + [] == mid;
  }

  /** One record that does not normalise makes the whole response fail. */
  lemma FlattenFailsAt(groups: seq<NodeGroup>, g: nat, j: nat)
    requires g < |groups| && j < |groups[g].records|
    requires Normalise(groups[g].records[j]).None?
    ensures Flatten(groups).None?
  {
    FlattenDefinedIff(groups);
  }
}
