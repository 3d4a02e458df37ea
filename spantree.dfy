/** `EtherSpanTree`: the port-state machine of an IEEE 802.1D-1998 bridge
    (clause 8.4). Each port is blocking, listening, learning or
    forwarding. The element elects the best configuration message it has
    heard (or its own), keeps the ports on the tree moving towards
    forwarding and blocks the others, and drives two suppressors that let
    frames in and out of each port according to its state. The bridge
    message itself (`BridgeMessage`: its ordering, ageing and wire format)
    is not part of this model; the operations the element calls on it are
    parameters. */
module SpanTree {
  import opened Common
  import opened Glue

  /** `_bridge_priority`, fixed by the constructor. */
  const BRIDGE_PRIORITY: int := 0xdead
  /** `1 << 48`: the bridge id (a 6-byte address) sits below the priority. */
  const POW48: int := 0x1_0000_0000_0000

  /** The port states, in the order `set_state` advances through them. */
  datatype PortState = Block | Listen | Learn | Forward

  function Rank(s: PortState): nat
  {
    match s
    case Block => 0
    case Listen => 1
    case Learn => 2
    case Forward => 3
  }

  /** `(PortState)(state + 1)`, for a state that has a successor. */
  function Next(s: PortState): (n: PortState)
    requires s != Forward
    ensures Rank(n) == Rank(s) + 1
  {
    match s
    case Block => Listen
    case Listen => Learn
    case Learn => Forward
  }

  /** What the input suppressor is told for a port entering `s`: LEARN and
      FORWARD ports take frames in. */
  predicate InputAllowed(s: PortState)
  {
    s == Learn || s == Forward
  }

  /** What the output suppressor is told: only FORWARD ports send. */
  predicate OutputAllowed(s: PortState)
  {
    s == Forward
  }

  /** The state `set_state` leaves a port in when asked for `req` (BLOCK or
      FORWARD, never LISTEN or LEARN): a port already there stays; BLOCK is
      entered at once; FORWARD is approached one state at a time, so a
      blocked port passes through LISTEN and LEARN first. */
  function Moved(cur: PortState, req: PortState): (s: PortState)
    requires req == Block || req == Forward
    ensures s == cur <==> cur == req
    ensures req == Block ==> s == Block
    ensures req == Forward && cur != Forward ==> Rank(s) == Rank(cur) + 1
    ensures s == Forward ==> cur == Learn || cur == Forward
  {
    if cur == req then cur
    else if req == Forward then Next(cur)
    else Block
  }

  /** Whether the request sets `_send_tc_msg`: a FORWARD request on a
      blocked port, or a BLOCK request on a port that was not blocked. */
  predicate RaisesTc(cur: PortState, req: PortState)
  {
    cur != req && (req == Block || cur == Block)
  }

  /** A bridge message as this element handles it directly: the path cost
      `find_tree` bumps and the three timers it reads; the rest of the
      message is `rest`. */
  datatype Msg = Msg(cost: int, maxAge: int, helloTime: int, forwardDelay: int, rest: seq<int>)

  /** A message as it arrives or leaves on the wire: the topology change and
      acknowledgement flags this element reads; `body` is the rest. */
  datatype Wire = Wire(tc: bool, tca: bool, body: seq<int>)

  /** The `BridgeMessage` operations the element calls. `compare(a, b)` is
      `a.compare(&b)`, negative when `b` is the better message;
      `compareAs(a, b, id, port)` compares `a` as sent by bridge `id` on
      `port`; `compareWire` compares with a message on the wire; `reset(id)`
      is the message of a bridge that believes itself root; `expire(m, t)`
      is the message after ageing against `t`, with whether it expired;
      `fromWire` decodes. */
  datatype MsgOps = MsgOps(
    compare: (Msg, Msg) -> int,
    compareAs: (Msg, Msg, int, int) -> int,
    compareWire: (Msg, Wire) -> int,
    reset: int -> Msg,
    expire: (Msg, Timeval) -> (bool, Msg),
    fromWire: Wire -> Msg)

  /** A port: its state and since when, the last message received on it,
      and whether an acknowledgement is owed on it. */
  datatype Port = Port(state: PortState, since: Timeval, msg: Msg, needsTca: bool)

  /** A packet `generate_packet` builds: `Tcn` is the topology change
      notification `fill_tcm` writes; `Config` is `_best` as `to_wire`
      writes it, stamped with this bridge's id and the output port, and
      with whether the element set its `tc` and `tca` flags. */
  datatype Hello =
    | Tcn(src: seq<int>)
    | Config(best: Msg, bridgeId: int, portId: int, tc: bool, tca: bool, src: seq<int>)

  /** `(u_int64_t)_bridge_priority << 48 | _bridge_id`: the two parts sit
      in disjoint bits, so the id decodes back into both. */
  function MyId(bridgeId: int): (id: int)
    requires 0 <= bridgeId < POW48
    ensures 0 <= id < POW48 * 0x1_0000
    ensures id / POW48 == BRIDGE_PRIORITY && id % POW48 == bridgeId
  {
    var id := BRIDGE_PRIORITY * POW48 + bridgeId;
    ModUnique(id, POW48, BRIDGE_PRIORITY, bridgeId);
    id
  }

  /** The port `set_state(i, req)` leaves behind: unchanged when it is
      already in `req`, otherwise in its new state since `now`. */
  function Step(p: Port, req: PortState, now: Timeval): Port
    requires req == Block || req == Forward
  {
    if p.state == req then p else p.(state := Moved(p.state, req), since := now)
  }

  /** The suppressors agree with the port states. */
  ghost predicate Matched(ps: seq<Port>, ins: seq<bool>, outs: seq<bool>)
  {
    && |ins| == |ps| && |outs| == |ps|
    && forall j :: 0 <= j < |ps| ==> ins[j] == InputAllowed(ps[j].state) && outs[j] == OutputAllowed(ps[j].state)
  }

  /** From `ps0` to `ps`, the suppressors were set for every port whose
      state changed and left alone for every other one. */
  ghost predicate Follows(ps0: seq<Port>, ps: seq<Port>, ins0: seq<bool>, ins: seq<bool>, outs0: seq<bool>, outs: seq<bool>)
  {
    && |ps| == |ps0| && |ins| == |ins0| == |ps| && |outs| == |outs0| == |ps|
    && forall j :: 0 <= j < |ps| ==>
         if ps[j].state != ps0[j].state
         then ins[j] == InputAllowed(ps[j].state) && outs[j] == OutputAllowed(ps[j].state)
         else ins[j] == ins0[j] && outs[j] == outs0[j]
  }

  /** Suppressors that follow the state changes keep agreeing with the
      states. */
  lemma {:induction false} FollowsKeepsMatched(ps0: seq<Port>, ps: seq<Port>, ins0: seq<bool>, ins: seq<bool>, outs0: seq<bool>, outs: seq<bool>)
    requires Matched(ps0, ins0, outs0) && Follows(ps0, ps, ins0, ins, outs0, outs)
    ensures Matched(ps, ins, outs)
  {
    forall j | 0 <= j < |ps|
      ensures ins[j] == InputAllowed(ps[j].state) && outs[j] == OutputAllowed(ps[j].state)
    {
      if ps[j].state == ps0[j].state {
        assert ins0[j] == InputAllowed(ps0[j].state);
      }
    }
  }

  /** A port `periodic` advances: listening or learning since before
      `cutoff`. */
  predicate Aged(p: Port, cutoff: Timeval)
  {
    (p.state == Listen || p.state == Learn) && TimerCmp(p.since, cutoff, LT)
  }

  /** The port after `periodic`'s first loop. Ageing moves a port exactly
      one state up, never into or out of BLOCK, and never raises a
      topology change. */
  function Advanced(p: Port, cutoff: Timeval, now: Timeval): (q: Port)
    ensures q.msg == p.msg && q.needsTca == p.needsTca
    ensures q.state != p.state <==> Aged(p, cutoff)
    ensures Aged(p, cutoff) ==> Rank(q.state) == Rank(p.state) + 1 && q.since == now
    ensures !Aged(p, cutoff) ==> q == p
    ensures (q.state == Block) == (p.state == Block)
    ensures q.state != p.state ==> !RaisesTc(p.state, Forward)
  {
    if Aged(p, cutoff) then Step(p, Forward, now) else p
  }

  /** The port `find_tree` starts from in `periodic`: advanced against
      `cutoff` by the first loop, then with its message aged against `t` by
      `expire`. */
  function Refreshed(p: Port, expire: (Msg, Timeval) -> (bool, Msg), cutoff: Timeval, t: Timeval, now: Timeval): (q: Port)
    ensures q.msg == expire(p.msg, t).1 && q.needsTca == p.needsTca
    ensures q.state != p.state <==> Aged(p, cutoff)
  {
    Advanced(p, cutoff, now).(msg := expire(p.msg, t).1)
  }

  /** Ageing does not raise the topology change flag, so `periodic` raises
      it only for ports `find_tree` moves, not for every port whose state
      changed: a listening port that ageing moves to LEARN and the election
      leaves alone ends in a new state, and the flag stays down. */
  lemma {:induction false} AgedMoveRaisesNothing(p: Port, expire: (Msg, Timeval) -> (bool, Msg), cutoff: Timeval, t: Timeval,
                                                 now: Timeval, c: int)
    requires p.state == Listen && TimerCmp(p.since, cutoff, LT) && c >= 0
    ensures var q := Refreshed(p, expire, cutoff, t, now);
            var r := Assigned(q, false, c, now);
            && r.state == Learn
            && TcFollows(false, false, [q], [r])
            && !TcFollows(false, false, [p], [r])
  {
    var q := Refreshed(p, expire, cutoff, t, now);
    var r := Assigned(q, false, c, now);
    assert [r][0].state != [p][0].state;
  }

  /** Every port of `ps0` as `periodic` hands it to `find_tree`. */
  function RefreshedAll(ps0: seq<Port>, expire: (Msg, Timeval) -> (bool, Msg), cutoff: Timeval, t: Timeval, now: Timeval): (ps: seq<Port>)
    ensures |ps| == |ps0| && forall j :: 0 <= j < |ps0| ==> ps[j] == Refreshed(ps0[j], expire, cutoff, t, now)
  {
    seq(|ps0|, j requires 0 <= j < |ps0| => Refreshed(ps0[j], expire, cutoff, t, now))
  }

  /** The ports of `ps0` once `push` has stored `m` as the message heard on
      `source`. */
  function Received(ps0: seq<Port>, source: int, m: Msg): (ps: seq<Port>)
    requires 0 <= source < |ps0|
    ensures |ps| == |ps0| && ps[source].msg == m
    ensures forall j :: 0 <= j < |ps0| ==> ps[j].state == ps0[j].state && (j != source ==> ps[j] == ps0[j])
  {
    ps0[source := ps0[source].(msg := m)]
  }

  /** `ps` is what `find_tree`'s second loop makes of `ps0`: every port
      `Assigned`, with `root` as the root port and `best` compared, as this
      bridge (`myId`) would send it on each port, with the message heard
      there. */
  ghost predicate AssignedFrom(ps0: seq<Port>, ps: seq<Port>, root: int, best: Msg,
                               compareAs: (Msg, Msg, int, int) -> int, myId: int, now: Timeval)
  {
    |ps| == |ps0| &&
    forall j :: 0 <= j < |ps| ==> ps[j] == Assigned(ps0[j], j == root, compareAs(best, ps0[j].msg, myId, j), now)
  }

  /** The topology change flag, `tc0` before, is raised exactly when some
      port's state differs between `ps0` and `ps`. */
  ghost predicate TcFollows(tc0: bool, tc: bool, ps0: seq<Port>, ps: seq<Port>)
  {
    tc == (tc0 || exists j :: 0 <= j < |ps| && j < |ps0| && ps[j].state != ps0[j].state)
  }

  /** The port after `find_tree`'s second loop. `isRoot` says whether it is
      the root port; `c` is how `_best`, as this bridge would send it on the
      port, compares with the message received there. */
  function Assigned(p: Port, isRoot: bool, c: int, now: Timeval): (q: Port)
    ensures q.msg == p.msg && q.needsTca == p.needsTca
    ensures q.state == Block <==> !isRoot && c < 0
    ensures q.state != Block ==> Rank(p.state) <= Rank(q.state) <= Rank(p.state) + 1
    ensures q.state == Forward ==> p.state == Forward
    ensures q.state != p.state ==> q.since == now
    ensures q.state == p.state ==> q == p
  {
    if isRoot then
      if p.state == Block then Step(p, Forward, now) else p
    else if c < 0 then Step(p, Block, now)
    else if p.state == Block then Step(p, Forward, now)
    else p
  }

  /** A copy of `m` one hop further from the root. */
  function Bumped(m: Msg): (b: Msg)
    ensures b.cost == m.cost + 1 && b.(cost := m.cost) == m
  {
    m.(cost := m.cost + 1)
  }

  /** The messages received on the ports. */
  function Msgs(ps: seq<Port>): (ms: seq<Msg>)
    ensures |ms| == |ps| && forall j :: 0 <= j < |ps| ==> ms[j] == ps[j].msg
  {
    seq(|ps|, j requires 0 <= j < |ps| => ps[j].msg)
  }

  /** The outcome of an election: the root port (-1 for none) and the best
      message. */
  datatype Election = Election(root: int, best: Msg)

  /** The election of `find_tree`'s first loop over the received messages
      `ms`, starting from the bridge's own message `own`: each message, one
      hop further away, replaces the running best when it is better. The
      winner is `own` when there is no root port and the root port's
      message otherwise, and no later port beats it. */
  function Elect(ms: seq<Msg>, own: Msg, compare: (Msg, Msg) -> int): (e: Election)
    ensures -1 <= e.root < |ms|
    ensures e.root == -1 ==> e.best == own
    ensures e.root >= 0 ==> e.best == Bumped(ms[e.root])
    ensures forall j :: e.root < j < |ms| ==> compare(e.best, Bumped(ms[j])) >= 0
    decreases |ms|
  {
    if ms == [] then Election(-1, own)
    else
      var k := |ms| - 1;
      var prev := Elect(ms[..k], own, compare);
      if compare(prev.best, Bumped(ms[k])) < 0 then
        Election(k, Bumped(ms[k]))
      else
        prev
  }

  /** One more port in the election. */
  lemma {:induction false} ElectSnoc(ms: seq<Msg>, i: nat, own: Msg, compare: (Msg, Msg) -> int)
    requires i < |ms|
    ensures Elect(ms[..i + 1], own, compare)
         == if compare(Elect(ms[..i], own, compare).best, Bumped(ms[i])) < 0
            then Election(i, Bumped(ms[i]))
            else Elect(ms[..i], own, compare)
  {
    assert ms[..i + 1][..i] == ms[..i];
  }

  /** There is no root port exactly when no port's message, one hop
      further away, beats the bridge's own. */
  lemma {:induction false} ElectNoRoot(ms: seq<Msg>, own: Msg, compare: (Msg, Msg) -> int)
    ensures Elect(ms, own, compare).root == -1 <==> forall j :: 0 <= j < |ms| ==> compare(own, Bumped(ms[j])) >= 0
    decreases |ms|
  {
    if ms != [] {
      var k := |ms| - 1;
      ElectNoRoot(ms[..k], own, compare);
      var prev := Elect(ms[..k], own, compare);
      if prev.root != -1 {
        var j :| 0 <= j < k && compare(own, Bumped(ms[..k][j])) < 0;
        assert ms[..k][j] == ms[j];
      } else {
        forall j | 0 <= j < k
          ensures ms[..k][j] == ms[j]
        {
        }
      }
    }
  }

  /** `compare` orders messages as a total preorder: every message is as
      good as itself, of two messages one is at least as good as the other,
      and "at least as good" is transitive. */
  ghost predicate TotalPreorder(compare: (Msg, Msg) -> int)
  {
    && (forall a :: compare(a, a) >= 0)
    && (forall a, b :: compare(a, b) < 0 ==> compare(b, a) >= 0)
    && (forall a, b, c {:trigger compare(a, b), compare(b, c)} :: compare(a, b) >= 0 && compare(b, c) >= 0 ==> compare(a, c) >= 0)
  }

  /** When `compare` is a total preorder, the elected message is at least as
      good as the bridge's own and as every received message one hop
      further away. */
  lemma {:induction false} ElectIsBest(ms: seq<Msg>, own: Msg, compare: (Msg, Msg) -> int)
    requires TotalPreorder(compare)
    ensures compare(Elect(ms, own, compare).best, own) >= 0
    ensures forall j :: 0 <= j < |ms| ==> compare(Elect(ms, own, compare).best, Bumped(ms[j])) >= 0
    decreases |ms|
  {
    if ms != [] {
      var k := |ms| - 1;
      ElectIsBest(ms[..k], own, compare);
      var prev := Elect(ms[..k], own, compare);
      var e := Elect(ms, own, compare);
      var m := Bumped(ms[k]);
      forall j | 0 <= j < k
        ensures compare(prev.best, Bumped(ms[j])) >= 0
      {
        assert ms[..k][j] == ms[j];
      }
      if compare(prev.best, m) < 0 {
        assert e.best == m;
        assert compare(m, prev.best) >= 0;
        assert compare(m, m) >= 0;
        forall j | 0 <= j < k
          ensures compare(m, Bumped(ms[j])) >= 0
        {
          assert compare(prev.best, Bumped(ms[j])) >= 0;
        }
      } else {
        assert e == prev;
      }
    }
  }

  class EtherSpanTree {
    /** The bridge message operations. */
    const ops: MsgOps
    /** `_addr` and `_bridge_id`, the 6-byte bridge address. */
    const addr: seq<int>
    const bridgeId: int
    /** `_port`: one record per port. */
    var ports: seq<Port>
    /** The input and output suppressors: whether each port may take
        frames in and send frames out. */
    var inputAllowed: seq<bool>
    var outputAllowed: seq<bool>
    /** `_send_tc_msg`, `_best` and `_topology_change` (`None` for null). */
    var sendTcMsg: bool
    var best: Msg
    var topologyChange: Option<Timeval>

    ghost predicate Valid()
      reads this
    {
      |inputAllowed| == |ports| && |outputAllowed| == |ports| && 0 <= bridgeId < POW48
    }

    /** The element once `notify_ninputs`, `notify_noutputs` and `configure`
        have run: `ports0` is the port vector, the suppressors allow every
        port, `_topology_change` is null and `best0` is the default
        message. */
    constructor (ops: MsgOps, addr: seq<int>, bridgeId: int, ports0: seq<Port>, best0: Msg)
      requires 0 <= bridgeId < POW48
      ensures Valid()
      ensures this.ops == ops && this.addr == addr && this.bridgeId == bridgeId
      ensures ports == ports0 && best == best0 && topologyChange == None && !sendTcMsg
      ensures forall j :: 0 <= j < |ports| ==> inputAllowed[j] && outputAllowed[j]
    {
      this.ops := ops;
      this.addr := addr;
      this.bridgeId := bridgeId;
      ports := ports0;
      inputAllowed := seq(|ports0|, _ => true);
      outputAllowed := seq(|ports0|, _ => true);
      sendTcMsg := false;
      best := best0;
      topologyChange := None;
    }

    /** `initialize`: every port is asked to forward, and the bridge starts
        out believing itself root. */
    method Initialize(now: Timeval)
      requires Valid()
      modifies this`ports, this`inputAllowed, this`outputAllowed, this`sendTcMsg, this`best
      ensures Valid() && |ports| == old(|ports|)
      ensures forall j :: 0 <= j < |ports| ==> ports[j] == Step(old(ports[j]), Forward, now)
      ensures sendTcMsg == (old(sendTcMsg) || exists j :: 0 <= j < |ports| && old(ports[j]).state == Block)
      ensures Follows(old(ports), ports, old(inputAllowed), inputAllowed, old(outputAllowed), outputAllowed)
      ensures best == ops.reset(MyId(bridgeId))
    {
      ghost var ps0, ins0, outs0, tc0 := ports, inputAllowed, outputAllowed, sendTcMsg;
      var i := 0;
      while i < |ports|
        invariant 0 <= i <= |ports| && Valid() && |ports| == |ps0|
        invariant forall j :: 0 <= j < i ==> ports[j] == Step(ps0[j], Forward, now)
        invariant forall j :: i <= j < |ports| ==> ports[j] == ps0[j]
        invariant Follows(ps0, ports, ins0, inputAllowed, outs0, outputAllowed)
        invariant sendTcMsg == (tc0 || exists j :: 0 <= j < i && ps0[j].state == Block)
      {
        var _ := SetState(i, Forward, now);
        i := i + 1;
      }
      best := ops.reset(MyId(bridgeId));
    }

    /** `set_state(i, req)`: whether port `i` changed. The new state is
        `Moved(state, req)` since `now`, the suppressors are set for it, and
        `_send_tc_msg` is raised as `RaisesTc` says. */
    method SetState(i: int, req: PortState, now: Timeval) returns (changed: bool)
      requires Valid() && 0 <= i < |ports| && (req == Block || req == Forward)
      modifies this`ports, this`inputAllowed, this`outputAllowed, this`sendTcMsg
      ensures Valid()
      ensures changed <==> old(ports[i].state) != req
      ensures ports == old(ports)[i := Step(old(ports[i]), req, now)]
      ensures sendTcMsg == (old(sendTcMsg) || RaisesTc(old(ports[i].state), req))
      ensures changed ==> inputAllowed == old(inputAllowed)[i := InputAllowed(ports[i].state)]
                          && outputAllowed == old(outputAllowed)[i := OutputAllowed(ports[i].state)]
      ensures !changed ==> inputAllowed == old(inputAllowed) && outputAllowed == old(outputAllowed)
    {
      var cur := ports[i].state;
      if cur == req {
        return false;
      }
      var target := req;
      if req == Forward {
        if cur == Block {
          sendTcMsg := true;
        }
        target := Next(cur);
      } else {
        sendTcMsg := true;
      }
      ports := ports[i := ports[i].(state := target, since := now)];
      match target {
        case Block =>
          inputAllowed := inputAllowed[i := false];
          outputAllowed := outputAllowed[i := false];
        case Listen =>
          inputAllowed := inputAllowed[i := false];
          outputAllowed := outputAllowed[i := false];
        case Learn =>
          inputAllowed := inputAllowed[i := true];
          outputAllowed := outputAllowed[i := false];
        case Forward =>
          inputAllowed := inputAllowed[i := true];
          outputAllowed := outputAllowed[i := true];
      }
      changed := true;
    }

    /** `periodic`: listening and learning ports older than the forward
        delay move one state on, the received messages are aged, and the
        tree is recomputed over the aged messages. Every port ends up as
        `find_tree` assigns it from its `Refreshed` self, and the topology
        change flag is raised exactly when that assignment moves a port. */
    method Periodic(now: Timeval) returns (rootPort: int)
      requires Valid()
      modifies this`ports, this`inputAllowed, this`outputAllowed, this`sendTcMsg, this`best
      ensures Valid() && |ports| == old(|ports|)
      ensures old(Matched(ports, inputAllowed, outputAllowed)) ==> Matched(ports, inputAllowed, outputAllowed)
      ensures forall j :: 0 <= j < |ports| ==>
                Msgs(ports)[j] == ops.expire(old(ports[j]).msg, Timeval(now.sec - old(best).maxAge, now.usec)).1
      ensures Elect(Msgs(ports), ops.reset(MyId(bridgeId)), ops.compare) == Election(rootPort, best)
      ensures var mid := RefreshedAll(old(ports), ops.expire, Timeval(now.sec - old(best).forwardDelay, now.usec),
                                      Timeval(now.sec - old(best).maxAge, now.usec), now);
              && AssignedFrom(mid, ports, rootPort, best, ops.compareAs, MyId(bridgeId), now)
              && TcFollows(old(sendTcMsg), sendTcMsg, mid, ports)
    {
      var cutoff := Timeval(now.sec - best.forwardDelay, now.usec);
      var t := Timeval(now.sec - best.maxAge, now.usec);
      ghost var mid := RefreshedAll(ports, ops.expire, cutoff, t, now);
      AdvanceAged(cutoff, now);
      var _ := Expire(now);
      assert ports == mid;
      rootPort := FindTree(now);
    }

    /** The first loop of `periodic`, against `cutoff`. */
    method AdvanceAged(cutoff: Timeval, now: Timeval)
      requires Valid()
      modifies this`ports, this`inputAllowed, this`outputAllowed, this`sendTcMsg
      ensures Valid() && |ports| == old(|ports|)
      ensures forall j :: 0 <= j < |ports| ==> ports[j] == Advanced(old(ports[j]), cutoff, now)
      ensures Follows(old(ports), ports, old(inputAllowed), inputAllowed, old(outputAllowed), outputAllowed)
      ensures old(Matched(ports, inputAllowed, outputAllowed)) ==> Matched(ports, inputAllowed, outputAllowed)
      ensures sendTcMsg == old(sendTcMsg)
    {
      ghost var ps0, ins0, outs0 := ports, inputAllowed, outputAllowed;
      var i := 0;
      while i < |ports|
        invariant 0 <= i <= |ports| && Valid() && |ports| == |ps0|
        invariant forall j :: 0 <= j < i ==> ports[j] == Advanced(ps0[j], cutoff, now)
        invariant forall j :: i <= j < |ports| ==> ports[j] == ps0[j]
        invariant Follows(ps0, ports, ins0, inputAllowed, outs0, outputAllowed)
        invariant sendTcMsg == old(sendTcMsg)
      {
        if ports[i].state == Listen || ports[i].state == Learn {
          if TimerCmp(ports[i].since, cutoff, LT) {
            var _ := SetState(i, Forward, now);
          }
        }
        i := i + 1;
      }
      if Matched(ps0, ins0, outs0) {
        FollowsKeepsMatched(ps0, ports, ins0, inputAllowed, outs0, outputAllowed);
      }
    }

    /** `expire`: every received message is aged against `now` less the
        maximum age; the result says whether any of them expired. */
    method Expire(now: Timeval) returns (expired: bool)
      requires Valid()
      modifies this`ports
      ensures Valid() && |ports| == old(|ports|)
      ensures forall j :: 0 <= j < |ports| ==>
                ports[j] == old(ports[j]).(msg := ops.expire(old(ports[j]).msg, Timeval(now.sec - best.maxAge, now.usec)).1)
      ensures expired <==> exists j :: 0 <= j < |ports| && ops.expire(old(ports[j]).msg, Timeval(now.sec - best.maxAge, now.usec)).0
    {
      var t := Timeval(now.sec - best.maxAge, now.usec);
      ghost var ps0 := ports;
      expired := false;
      var i := 0;
      while i < |ports|
        invariant 0 <= i <= |ports| && Valid() && |ports| == |ps0|
        invariant forall j :: 0 <= j < i ==> ports[j] == ps0[j].(msg := ops.expire(ps0[j].msg, t).1)
        invariant forall j :: i <= j < |ports| ==> ports[j] == ps0[j]
        invariant expired <==> exists j :: 0 <= j < i && ops.expire(ps0[j].msg, t).0
      {
        var r := ops.expire(ports[i].msg, t);
        ports := ports[i := ports[i].(msg := r.1)];
        if r.0 {
          expired := true;
        }
        i := i + 1;
      }
    }

    /** `find_tree`: the election, then the port assignment. `rootPort` is
        the root port it settled on. */
    method FindTree(now: Timeval) returns (rootPort: int)
      requires Valid()
      modifies this`ports, this`inputAllowed, this`outputAllowed, this`sendTcMsg, this`best
      ensures Valid() && |ports| == old(|ports|) && Msgs(ports) == old(Msgs(ports))
      ensures Elect(Msgs(ports), ops.reset(MyId(bridgeId)), ops.compare) == Election(rootPort, best)
      ensures AssignedFrom(old(ports), ports, rootPort, best, ops.compareAs, MyId(bridgeId), now)
      ensures TcFollows(old(sendTcMsg), sendTcMsg, old(ports), ports)
      ensures Follows(old(ports), ports, old(inputAllowed), inputAllowed, old(outputAllowed), outputAllowed)
      ensures old(Matched(ports, inputAllowed, outputAllowed)) ==> Matched(ports, inputAllowed, outputAllowed)
    {
      rootPort := ElectRoot();
      AssignPorts(rootPort, now);
    }

    /** The first loop of `find_tree`: each port's message has its cost
        raised while it is compared, and restored after. */
    method ElectRoot() returns (rootPort: int)
      requires Valid()
      modifies this`ports, this`best
      ensures Valid() && ports == old(ports)
      ensures Elect(Msgs(ports), ops.reset(MyId(bridgeId)), ops.compare) == Election(rootPort, best)
    {
      var compare := ops.compare;
      var own := ops.reset(MyId(bridgeId));
      ghost var ms := Msgs(ports);
      rootPort := -1;
      best := own;
      var i := 0;
      while i < |ports|
        invariant 0 <= i <= |ports| && ports == old(ports)
        invariant Elect(ms[..i], own, compare) == Election(rootPort, best)
      {
        ElectSnoc(ms, i, own, compare);
        rootPort := ElectOne(i, rootPort, compare);
        i := i + 1;
      }
      assert ms[..i] == ms;
    }

    /** One iteration of that loop, on port `i`: `_best` and the root port
        change when the port's message, one hop further away, is better. */
    method ElectOne(i: int, rootPort: int, compare: (Msg, Msg) -> int) returns (root: int)
      requires 0 <= i < |ports|
      modifies this`ports, this`best
      ensures ports == old(ports)
      ensures Election(root, best) == if compare(old(best), Bumped(ports[i].msg)) < 0
                                      then Election(i, Bumped(ports[i].msg))
                                      else Election(rootPort, old(best))
    {
      root := rootPort;
      var p := ports[i];
      ports := ports[i := p.(msg := p.msg.(cost := p.msg.cost + 1))];
      if compare(best, ports[i].msg) < 0 {
        best := ports[i].msg;
        root := i;
      }
      ports := ports[i := p.(msg := ports[i].msg.(cost := ports[i].msg.cost - 1))];
    }

    /** The second loop of `find_tree`: the root port, if blocked, starts
        towards forwarding; another port is blocked when the message heard
        on it beats what this bridge would send there, and otherwise starts
        towards forwarding if it was blocked. */
    method AssignPorts(rootPort: int, now: Timeval)
      requires Valid()
      modifies this`ports, this`inputAllowed, this`outputAllowed, this`sendTcMsg
      ensures Valid() && |ports| == old(|ports|)
      ensures AssignedFrom(old(ports), ports, rootPort, best, ops.compareAs, MyId(bridgeId), now)
      ensures TcFollows(old(sendTcMsg), sendTcMsg, old(ports), ports)
      ensures Follows(old(ports), ports, old(inputAllowed), inputAllowed, old(outputAllowed), outputAllowed)
      ensures old(Matched(ports, inputAllowed, outputAllowed)) ==> Matched(ports, inputAllowed, outputAllowed)
    {
      ghost var ps0, ins0, outs0, tc0 := ports, inputAllowed, outputAllowed, sendTcMsg;
      var myId := MyId(bridgeId);
      var i := 0;
      while i < |ports|
        invariant 0 <= i <= |ports| && Valid() && |ports| == |ps0|
        invariant forall j :: 0 <= j < i ==> ports[j] == Assigned(ps0[j], j == rootPort, ops.compareAs(best, ps0[j].msg, myId, j), now)
        invariant forall j :: i <= j < |ports| ==> ports[j] == ps0[j]
        invariant Follows(ps0, ports, ins0, inputAllowed, outs0, outputAllowed)
        invariant sendTcMsg == (tc0 || exists j :: 0 <= j < i && ports[j].state != ps0[j].state)
      {
        AssignOne(i, rootPort, myId, now);
        i := i + 1;
      }
      if Matched(ps0, ins0, outs0) {
        FollowsKeepsMatched(ps0, ports, ins0, inputAllowed, outs0, outputAllowed);
      }
    }

    /** One iteration of that loop, on port `i`. */
    method AssignOne(i: int, rootPort: int, myId: int, now: Timeval)
      requires Valid() && 0 <= i < |ports|
      modifies this`ports, this`inputAllowed, this`outputAllowed, this`sendTcMsg
      ensures Valid()
      ensures ports == old(ports)[i := Assigned(old(ports[i]), i == rootPort, ops.compareAs(best, old(ports[i]).msg, myId, i), now)]
      ensures sendTcMsg == (old(sendTcMsg) || ports[i].state != old(ports[i]).state)
      ensures ports[i].state != old(ports[i]).state ==>
                inputAllowed == old(inputAllowed)[i := InputAllowed(ports[i].state)]
                && outputAllowed == old(outputAllowed)[i := OutputAllowed(ports[i].state)]
      ensures ports[i].state == old(ports[i]).state ==> inputAllowed == old(inputAllowed) && outputAllowed == old(outputAllowed)
    {
      if i == rootPort {
        if ports[i].state == Block {
          var _ := SetState(i, Forward, now);
        }
        return;
      }
      var cmp := ops.compareAs(best, ports[i].msg, myId, i);
      if cmp < 0 {
        var _ := SetState(i, Block, now);
      } else if ports[i].state == Block {
        var _ := SetState(i, Forward, now);
      }
    }

    /** `push`: a message received on `source` replaces the stored one when
        it is at least as good (an acknowledgement then stops the topology
        change notices), and the tree is recomputed. The packet is
        consumed. */
    method Push(source: int, w: Wire, now: Timeval) returns (rootPort: int)
      requires Valid() && 0 <= source < |ports|
      modifies this`ports, this`inputAllowed, this`outputAllowed, this`sendTcMsg, this`best
      ensures Valid() && |ports| == old(|ports|)
      ensures Msgs(ports) == if ops.compareWire(old(ports[source]).msg, w) <= 0
                             then old(Msgs(ports))[source := ops.fromWire(w)]
                             else old(Msgs(ports))
      ensures Elect(Msgs(ports), ops.reset(MyId(bridgeId)), ops.compare) == Election(rootPort, best)
      ensures var accepted := ops.compareWire(old(ports[source]).msg, w) <= 0;
              var mid := if accepted then Received(old(ports), source, ops.fromWire(w)) else old(ports);
              && AssignedFrom(mid, ports, rootPort, best, ops.compareAs, MyId(bridgeId), now)
              && TcFollows(old(sendTcMsg) && !(accepted && w.tca), sendTcMsg, mid, ports)
      ensures old(Matched(ports, inputAllowed, outputAllowed)) ==> Matched(ports, inputAllowed, outputAllowed)
    {
      var cmp := ops.compareWire(ports[source].msg, w);
      if cmp <= 0 {
        ports := Received(ports, source, ops.fromWire(w));
        sendTcMsg := sendTcMsg && !w.tca;
        assert Msgs(ports) == old(Msgs(ports))[source := ops.fromWire(w)];
      }
      rootPort := FindTree(now);
    }

    /** `generate_packet(output)`: nothing when the message heard on the
        port beats `_best`, or equals it with no topology change pending; a
        topology change notice when it equals `_best`; otherwise `_best`
        as this bridge sends it on the port, with `tc` set while a recorded
        topology change is younger than forward delay plus maximum age (an
        older one is forgotten) and `tca` set when an acknowledgement is
        owed (it is then no longer owed). */
    method GeneratePacket(output: int, now: Timeval) returns (p: Option<Hello>)
      requires Valid() && 0 <= output < |ports|
      modifies this`ports, this`topologyChange
      ensures Valid()
      ensures p.None? <==> (ops.compare(best, ports[output].msg) < 0
                            || (ops.compare(best, ports[output].msg) == 0 && !sendTcMsg))
      ensures ops.compare(best, ports[output].msg) <= 0 ==> ports == old(ports) && topologyChange == old(topologyChange)
      ensures ops.compare(best, ports[output].msg) == 0 && sendTcMsg ==> p == Some(Tcn(addr))
      ensures ops.compare(best, ports[output].msg) > 0 ==>
                && p.Some? && p.value.Config?
                && p.value == Config(best, MyId(bridgeId), U16(output), p.value.tc, old(ports[output].needsTca), addr)
                && ports == old(ports)[output := old(ports[output]).(needsTca := false)]
                && (p.value.tc <==> old(topologyChange).Some? && topologyChange == old(topologyChange))
                && (topologyChange.None? <==> p.value.tc == false)
                && (old(topologyChange).Some? ==>
                      (!p.value.tc <==> TimerCmp(old(topologyChange).value, Timeval(now.sec - (best.forwardDelay + best.maxAge), now.usec), LT)))
    {
      var cmp := ops.compare(best, ports[output].msg);
      if cmp < 0 {
        return None;
      }
      if cmp == 0 && !sendTcMsg {
        return None;
      }
      if cmp == 0 {
        return Some(Tcn(addr));
      }
      var tc := false;
      if topologyChange.Some? {
        var cutoff := Timeval(now.sec - (best.forwardDelay + best.maxAge), now.usec);
        if TimerCmp(topologyChange.value, cutoff, LT) {
          topologyChange := None;
        } else {
          tc := true;
        }
      }
      var tca := false;
      if ports[output].needsTca {
        ports := ports[output := ports[output].(needsTca := false)];
        tca := true;
      }
      p := Some(Config(best, MyId(bridgeId), U16(output), tc, tca, addr));
    }
  }
}
