/**
 Apache ports of OpenStackProvisionServers: the allocator, the defaulting and
 validating webhooks, and the guarantee over every serialised run of admissions.
 */
module Ports {
  import opened Types

  datatype Key = Key(namespace: string, name: string)

  /** spec.port of every server in the cluster; 0 when unset. */
  type PortMap = map<Key, int>

  const PORT_START := 6190
  const PORT_END := 6210

  predicate Int32(x: int) {
    -0x8000_0000 <= x < 0x8000_0000
  }

  /** The servers that hold a port. */
  function InUse(servers: PortMap): PortMap {
    map k | k in servers && servers[k] != 0 :: servers[k]
  }

  function OwnPort(existing: PortMap, self: Key): int {
    if self in existing then existing[self] else 0
  }

  ghost predicate Taken(existing: PortMap, port: int) {
    exists k :: k in existing && existing[k] == port
  }

  // ---------------------------------------------------------------- the allocator

  /** An OpenStackProvisionServer object in memory. */
  class Server {
    const key: Key
    var port: int

    constructor (key: Key, port: int)
      ensures this.key == key && this.port == port
    {
      this.key := key;
      this.port := port;
    }
  }

  method GetExistingPorts(servers: PortMap) returns (found: PortMap)
    ensures found == InUse(servers)
  {
    found := map[];
    var order := Range(servers.Keys);
    for i := 0 to |order|
      invariant found == map k | k in order[..i] && k in servers && servers[k] != 0 :: servers[k]
    {
      var k := order[i];
      assert k in servers.Keys;
      assert order[..i + 1] == order[..i] + [k];
      if servers[k] != 0 {
        found := found[k := servers[k]];
      }
    }
    assert order[..|order|] == order;
  }

  method IsTaken(existing: PortMap, port: int) returns (found: bool)
    ensures found <==> Taken(existing, port)
  {
    var order := Range(existing.Keys);
    for i := 0 to |order|
      invariant forall j | 0 <= j < i :: order[j] in existing && existing[order[j]] != port
    {
      assert order[i] in existing.Keys;
      if existing[order[i]] == port {
        return true;
      }
    }
    assert forall k | k in existing :: k in order;
    return false;
  }

  /** What the allocator answers: the recorded port, else the least port of the range nobody holds. */
  ghost predicate IsAnswer(existing: PortMap, self: Key, start: int, end: int, r: Option<int>) {
    var own := OwnPort(existing, self);
    if own != 0 then r == if own <= end then Some(own) else None
    else
      match r
      case Some(p) => start <= p <= end && !Taken(existing, p) && forall q | start <= q < p :: Taken(existing, q)
      case None => forall q | start <= q <= end :: Taken(existing, q)
  }

  /** Errs exactly when the recorded port is above the range or no port of the range is free. */
  method AssignPort(server: Server, servers: PortMap, start: int, end: int) returns (ok: bool)
    requires Int32(start) && Int32(end) && end < 0x7fff_ffff && forall k | k in servers :: Int32(servers[k])
    modifies server
    ensures ok ==> IsAnswer(InUse(servers), server.key, start, end, Some(server.port))
    ensures !ok ==> IsAnswer(InUse(servers), server.key, start, end, None) && server.port == old(server.port)
  {
    var existing := GetExistingPorts(servers);
    var own := OwnPort(existing, server.key);
    var cur := own;
    if cur == 0 {
      cur := start;
    }
    while true
      invariant own != 0 ==> cur == own
      invariant own == 0 ==> start <= cur && forall q | start <= q < cur :: Taken(existing, q)
      invariant Int32(cur) && server.port == old(server.port)
      decreases end - cur
    {
      if cur > end {
        return false;
      }
      var found := IsTaken(existing, cur);
      if found && own != cur {
        cur := cur + 1;
      } else {
        break;
      }
    }
    server.port := cur;
    return true;
  }

  lemma AnswerIsUnique(existing: PortMap, self: Key, start: int, end: int, r: Option<int>, r': Option<int>)
    requires IsAnswer(existing, self, start, end, r) && IsAnswer(existing, self, start, end, r')
    ensures r == r'
  {
  }

  /** A full range needs as many servers as it has ports. */
  lemma {:induction false} FullRangeNeedsServers(existing: PortMap, start: int, end: int)
    requires forall q | start <= q <= end :: Taken(existing, q)
    ensures |existing| >= end - start + 1
    decreases end - start + 1
  {
    if start <= end {
      assert Taken(existing, end);
      var k :| k in existing && existing[k] == end;
      var rest := existing - {k};
      forall q | start <= q <= end - 1 ensures Taken(rest, q) {
        assert Taken(existing, q);
        var j :| j in existing && existing[j] == q;
        assert j in rest && rest[j] == q;
      }
      FullRangeNeedsServers(rest, start, end - 1);
      assert existing.Keys == rest.Keys + {k};
    }
  }

  /** A new server gets a port whenever fewer servers hold ports than the range has. */
  lemma NewServerGetsPort(existing: PortMap, self: Key, start: int, end: int, r: Option<int>)
    requires OwnPort(existing, self) == 0 && |existing| < end - start + 1
    requires IsAnswer(existing, self, start, end, r)
    ensures r.Some?
  {
    if r.None? {
      FullRangeNeedsServers(existing, start, end);
    }
  }

  // ---------------------------------------------------------------- the webhooks

  /** Defaulting fills in an unset port; an allocator error leaves it unset. */
  method Default(server: Server, servers: PortMap)
    requires forall k | k in servers :: Int32(servers[k])
    modifies server
    ensures server.port == Defaulted(servers, server.key, old(server.port))
  {
    AnswerExists(InUse(servers), server.key, PORT_START, PORT_END);
    if server.port == 0 {
      var ok := AssignPort(server, servers, PORT_START, PORT_END);
      AnswerIsUnique(InUse(servers), server.key, PORT_START, PORT_END,
                     Answer(InUse(servers), server.key), if ok then Some(server.port) else None);
    }
  }

  method ValidateCr(server: Server, servers: PortMap) returns (ok: bool)
    ensures ok <==> Valid(servers, server.key, server.port)
  {
    if server.port == 0 {
      return false;
    }
    var existing := GetExistingPorts(servers);
    var order := Range(existing.Keys);
    for i := 0 to |order|
      invariant forall j | 0 <= j < i ::
                  order[j] in existing && (existing[order[j]] == server.port ==> order[j] == server.key)
    {
      assert order[i] in existing.Keys;
      if existing[order[i]] == server.port && order[i] != server.key {
        return false;
      }
    }
    assert forall k | k in existing :: k in order;
    return true;
  }

  lemma {:induction false} LeastFreeExists(existing: PortMap, start: int, from: int, end: int) returns (r: Option<int>)
    requires forall q | start <= q < from :: Taken(existing, q)
    requires start <= from
    ensures match r
            case Some(p) => start <= p <= end && !Taken(existing, p) && forall q | start <= q < p :: Taken(existing, q)
            case None => forall q | start <= q <= end :: Taken(existing, q)
    decreases end - from
  {
    if from > end {
      r := None;
    } else if Taken(existing, from) {
      r := LeastFreeExists(existing, start, from + 1, end);
    } else {
      r := Some(from);
    }
  }

  lemma AnswerExists(existing: PortMap, self: Key, start: int, end: int)
    ensures exists r :: IsAnswer(existing, self, start, end, r)
  {
    var own := OwnPort(existing, self);
    if own != 0 {
      assert IsAnswer(existing, self, start, end, if own <= end then Some(own) else None);
    } else {
      var r := LeastFreeExists(existing, start, start, end);
      assert IsAnswer(existing, self, start, end, r);
    }
  }

  /** The allocator's answer for the operator's port range. */
  ghost function Answer(existing: PortMap, self: Key): (r: Option<int>)
    ensures IsAnswer(existing, self, PORT_START, PORT_END, r)
  {
    AnswerExists(existing, self, PORT_START, PORT_END);
    var r :| IsAnswer(existing, self, PORT_START, PORT_END, r);
    r
  }

  ghost function Defaulted(servers: PortMap, self: Key, requested: int): int {
    if requested != 0 then requested
    else
      match Answer(InUse(servers), self)
      case Some(p) => p
      case None => 0
  }

  ghost predicate Valid(servers: PortMap, self: Key, port: int) {
    port != 0 && forall k | k in InUse(servers) && InUse(servers)[k] == port :: k == self
  }

  // ---------------------------------------------------------------- runs of admissions

  datatype Request = Submit(key: Key, port: int) | Remove(key: Key)

  ghost predicate Accepted(servers: PortMap, key: Key, port: int) {
    Valid(servers, key, Defaulted(servers, key, port))
  }

  /** Defaulting, then validation, then commit; a rejected request changes nothing. */
  ghost function Admit(servers: PortMap, request: Request): PortMap {
    match request
    case Submit(key, port) =>
      if Accepted(servers, key, port) then servers[key := Defaulted(servers, key, port)] else servers
    case Remove(key) => servers - {key}
  }

  ghost function AdmitAll(servers: PortMap, requests: seq<Request>): PortMap
    decreases |requests|
  {
    if requests == [] then servers else AdmitAll(Admit(servers, requests[0]), requests[1..])
  }

  /** Every server has a port, and no two have the same. */
  ghost predicate PortsOk(servers: PortMap) {
    && (forall k | k in servers :: servers[k] != 0)
    && (forall k, j | k in servers && j in servers && servers[k] == servers[j] :: k == j)
  }

  lemma AdmitKeepsPortsOk(servers: PortMap, request: Request)
    requires PortsOk(servers)
    ensures PortsOk(Admit(servers, request))
  {
    match request
    case Remove(_) =>
    case Submit(key, port) =>
      if Accepted(servers, key, port) {
        var p := Defaulted(servers, key, port);
        forall k | k in servers && k != key ensures servers[k] != p {
          assert k in InUse(servers);
        }
      }
  }

  /** Over every run of requests, any two servers have different ports and none is unset. */
  lemma {:induction false} PortsDistinctInEveryRun(servers: PortMap, requests: seq<Request>)
    requires PortsOk(servers)
    ensures PortsOk(AdmitAll(servers, requests))
    decreases |requests|
  {
    if requests != [] {
      AdmitKeepsPortsOk(servers, requests[0]);
      PortsDistinctInEveryRun(Admit(servers, requests[0]), requests[1..]);
    }
  }

  /**
   A request that leaves the port unset is accepted exactly when the server's
   recorded port is within the range, or it has none and some port is free.
   */
  lemma UnsetPortAcceptedExactly(servers: PortMap, key: Key)
    requires PortsOk(servers)
    ensures Accepted(servers, key, 0) <==>
            if key in servers then servers[key] <= PORT_END
            else exists p :: PORT_START <= p <= PORT_END && !Taken(servers, p)
  {
    assert InUse(servers) == servers;
    var r := Answer(servers, key);
    assert IsAnswer(servers, key, PORT_START, PORT_END, r);
  }

  // ---------------------------------------------------------------- the range in numbers

  /** Requests without a port, one per server. */
  function Unset(keys: seq<Key>): seq<Request> {
    seq(|keys|, i requires 0 <= i < |keys| => Submit(keys[i], 0))
  }

  ghost predicate DistinctKeys(keys: seq<Key>) {
    forall i, j | 0 <= i < j < |keys| :: keys[i] != keys[j]
  }

  /** The first servers have the first ports of the range, in order. */
  ghost predicate Consecutive(servers: PortMap, keys: seq<Key>) {
    && (forall k :: k in servers <==> k in keys)
    && (forall i | 0 <= i < |keys| :: keys[i] in servers && servers[keys[i]] == 6190 + i)
  }

  lemma ConsecutiveIsOk(servers: PortMap, keys: seq<Key>)
    requires Consecutive(servers, keys) && DistinctKeys(keys)
    ensures PortsOk(servers) && InUse(servers) == servers
    ensures forall p :: Taken(servers, p) <==> 6190 <= p < 6190 + |keys|
  {
    forall k | k in servers ensures servers[k] != 0 && 6190 <= servers[k] < 6190 + |keys| {
      var i :| 0 <= i < |keys| && keys[i] == k;
    }
    forall k, j | k in servers && j in servers && servers[k] == servers[j] ensures k == j {
      var i :| 0 <= i < |keys| && keys[i] == k;
      var i' :| 0 <= i' < |keys| && keys[i'] == j;
    }
    forall p | 6190 <= p < 6190 + |keys| ensures Taken(servers, p) {
      assert servers[keys[p - 6190]] == p;
    }
    assert InUse(servers) == servers;
  }

  /** The next server gets the next port. */
  lemma NextServer(servers: PortMap, keys: seq<Key>, key: Key)
    requires Consecutive(servers, keys) && DistinctKeys(keys) && key !in keys && |keys| < 21
    ensures Consecutive(Admit(servers, Submit(key, 0)), keys + [key])
  {
    ConsecutiveIsOk(servers, keys);
    var p := 6190 + |keys|;
    assert IsAnswer(servers, key, PORT_START, PORT_END, Some(p));
    AnswerIsUnique(servers, key, PORT_START, PORT_END, Answer(servers, key), Some(p));
    assert Defaulted(servers, key, 0) == p;
    assert !Taken(servers, p);
    assert Valid(servers, key, p);
    assert Admit(servers, Submit(key, 0)) == servers[key := p];
    var keys' := keys + [key];
    forall k ensures k in keys' <==> k in keys || k == key {
    }
  }

  lemma {:induction false} AdmitOneMore(servers: PortMap, requests: seq<Request>, last: Request)
    ensures AdmitAll(servers, requests + [last]) == Admit(AdmitAll(servers, requests), last)
    decreases |requests|
  {
    if requests != [] {
      AdmitOneMore(Admit(servers, requests[0]), requests[1..], last);
      assert (requests + [last])[0] == requests[0] && (requests + [last])[1..] == requests[1..] + [last];
    } else {
      assert ([last])[1..] == [];
    }
  }

  /** Up to 21 servers without a port all get one, 6190 first and 6210 last. */
  lemma {:induction false} FirstServersAreServed(keys: seq<Key>)
    requires DistinctKeys(keys) && |keys| <= 21
    ensures Consecutive(AdmitAll(map[], Unset(keys)), keys)
    decreases |keys|
  {
    if keys != [] {
      var init, last := keys[..|keys| - 1], keys[|keys| - 1];
      FirstServersAreServed(init);
      assert keys == init + [last] && Unset(keys) == Unset(init) + [Submit(last, 0)];
      AdmitOneMore(map[], Unset(init), Submit(last, 0));
      NextServer(AdmitAll(map[], Unset(init)), init, last);
    }
  }

  /** The 22nd is rejected. */
  lemma NextServerIsRejected(keys: seq<Key>, key: Key)
    requires DistinctKeys(keys) && |keys| == 21 && key !in keys
    ensures !Accepted(AdmitAll(map[], Unset(keys)), key, 0)
  {
    var servers := AdmitAll(map[], Unset(keys));
    FirstServersAreServed(keys);
    ConsecutiveIsOk(servers, keys);
    UnsetPortAcceptedExactly(servers, key);
  }

  /** A port that is asked for is stored as it is, in or out of the range, unless another server has it. */
  lemma ExplicitPortIsKept(servers: PortMap, key: Key, port: int)
    requires port != 0
    ensures Admit(servers, Submit(key, port)) ==
            if exists k :: k in servers && k != key && servers[k] == port then servers else servers[key := port]
  {
    if k :| k in servers && k != key && servers[k] == port {
      assert k in InUse(servers);
    }
  }

  /** So an explicit port above the allocator's range, once accepted, makes later requests without a port fail. */
  lemma PortAboveRangeBlocksUpdates(servers: PortMap, key: Key, port: int)
    requires PortsOk(servers) && PORT_END < port && Accepted(servers, key, port)
    ensures
      var servers' := Admit(servers, Submit(key, port));
      servers'[key] == port && !Accepted(servers', key, 0)
  {
  }
}
