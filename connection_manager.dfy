/**
 * The registry of live client sockets: registration in arrival order, removal of the first
 * occurrence, and broadcast sweeps that evict every socket whose send failed once the sweep
 * is over. Which sends fail is given by the caller as a set of sockets.
 */
module Connections {
  import opened Models

  /** One attempted send of a broadcast: to whom, what, and whether it went through. */
  datatype Delivery = Delivery(to: ChannelId, text: Payload, ok: bool)

  /** `i` is the index of the first occurrence of `c` in `s`. */
  predicate FirstIndex(s: seq<ChannelId>, c: ChannelId, i: int) {
    0 <= i < |s| && s[i] == c && forall j :: 0 <= j < i ==> s[j] != c
  }

  /** `list.remove(c)` guarded by `c in list`: drops the first occurrence, if there is one. */
  function RemoveFirst(s: seq<ChannelId>, c: ChannelId): seq<ChannelId> {
    if s == [] then []
    else if s[0] == c then s[1..]
    else [s[0]] + RemoveFirst(s[1..], c)
  }

  /** Removing a socket that is not registered leaves the registry as it is. */
  lemma {:induction false} RemoveAbsent(s: seq<ChannelId>, c: ChannelId)
    requires c !in s
    ensures RemoveFirst(s, c) == s
    decreases |s|
  {
    if s != [] {
      assert c !in s[1..];
      RemoveAbsent(s[1..], c);
      assert s == [s[0]] + s[1..];
    }
  }

  /** Removing a registered socket cuts out exactly its first occurrence. */
  lemma {:induction false} RemoveFirstSplices(s: seq<ChannelId>, c: ChannelId, i: int)
    requires FirstIndex(s, c, i)
    ensures RemoveFirst(s, c) == s[..i] + s[i + 1..]
    decreases i
  {
    if i > 0 {
      var t := s[1..];
      assert s[0] != c;
      assert FirstIndex(t, c, i - 1) by {
        forall j | 0 <= j < i - 1 ensures t[j] != c {
          assert t[j] == s[j + 1];
        }
      }
      RemoveFirstSplices(t, c, i - 1);
      assert s[..i] == [s[0]] + t[..i - 1];
      assert s[i + 1..] == t[i..];
    }
  }

  /** The elements of `s` whose membership in `failing` is `wanted`, in their order in `s`. */
  function Select(s: seq<ChannelId>, failing: set<ChannelId>, wanted: bool): (r: seq<ChannelId>)
    ensures |r| <= |s|
    ensures forall i :: 0 <= i < |r| ==> r[i] in s && (r[i] in failing) == wanted
  {
    if s == [] then []
    else if (s[0] in failing) == wanted then [s[0]] + Select(s[1..], failing, wanted)
    else Select(s[1..], failing, wanted)
  }

  /** The sockets of `s` not in `failing`: the registry after a sweep. */
  function Keep(s: seq<ChannelId>, failing: set<ChannelId>): seq<ChannelId> {
    Select(s, failing, false)
  }

  /** The sockets of `s` in `failing`: the `disconnected` list a sweep builds. */
  function Failed(s: seq<ChannelId>, failing: set<ChannelId>): seq<ChannelId> {
    Select(s, failing, true)
  }

  /** The sends of one sweep over `targets`, in order, all carrying the same serialised text. */
  function Deliveries(targets: seq<ChannelId>, text: Payload, failing: set<ChannelId>): (r: seq<Delivery>)
    ensures |r| == |targets|
    ensures forall i :: 0 <= i < |r| ==> r[i].to == targets[i] && r[i].text == text && (r[i].ok <==> targets[i] !in failing)
  {
    seq(|targets|, i requires 0 <= i < |targets| => Delivery(targets[i], text, targets[i] !in failing))
  }

  lemma DeliveriesSnoc(t: seq<ChannelId>, c: ChannelId, text: Payload, failing: set<ChannelId>)
    ensures Deliveries(t + [c], text, failing) == Deliveries(t, text, failing) + [Delivery(c, text, c !in failing)]
  {
  }

  /** `disconnect` applied to each socket of `d` in turn. */
  function Evict(s: seq<ChannelId>, d: seq<ChannelId>): seq<ChannelId>
    decreases |d|
  {
    if d == [] then s else Evict(RemoveFirst(s, d[0]), d[1..])
  }

  /** A socket is selected exactly when it is registered and its membership in `failing` is `wanted`. */
  lemma {:induction false} SelectMembers(s: seq<ChannelId>, failing: set<ChannelId>, wanted: bool)
    ensures forall c :: c in Select(s, failing, wanted) <==> c in s && (c in failing) == wanted
    decreases |s|
  {
    if s != [] {
      SelectMembers(s[1..], failing, wanted);
      assert s == [s[0]] + s[1..];
    }
  }

  lemma {:induction false} SelectAppend(a: seq<ChannelId>, b: seq<ChannelId>, failing: set<ChannelId>, wanted: bool)
    ensures Select(a + b, failing, wanted) == Select(a, failing, wanted) + Select(b, failing, wanted)
    decreases |a|
  {
    if a == [] {
      assert a + b == b;
    } else {
      assert (a + b)[1..] == a[1..] + b;
      SelectAppend(a[1..], b, failing, wanted);
    }
  }

  /** Selecting over one more socket appends that socket exactly when it is wanted. */
  lemma SelectSnoc(a: seq<ChannelId>, c: ChannelId, failing: set<ChannelId>, wanted: bool)
    ensures Select(a + [c], failing, wanted)
      == Select(a, failing, wanted) + (if (c in failing) == wanted then [c] else [])
  {
    SelectAppend(a, [c], failing, wanted);
    assert [c][1..] == [];
  }

  /** Removing sockets that do not include the head leaves the head in front. */
  lemma {:induction false} EvictKeepsHead(h: ChannelId, t: seq<ChannelId>, d: seq<ChannelId>)
    requires h !in d
    ensures Evict([h] + t, d) == [h] + Evict(t, d)
    decreases |d|
  {
    if d != [] {
      assert ([h] + t)[1..] == t;
      assert RemoveFirst([h] + t, d[0]) == [h] + RemoveFirst(t, d[0]);
      EvictKeepsHead(h, RemoveFirst(t, d[0]), d[1..]);
    }
  }

  /**
   * Evicting the failed sockets one by one, each by its first occurrence, leaves exactly
   * the sockets whose send succeeded, in their original order.
   */
  lemma {:induction false} EvictFailed(s: seq<ChannelId>, failing: set<ChannelId>)
    ensures Evict(s, Failed(s, failing)) == Keep(s, failing)
    decreases |s|
  {
    if s != [] {
      var h, t := s[0], s[1..];
      assert s == [h] + t;
      EvictFailed(t, failing);
      if h in failing {
        assert Failed(s, failing) == [h] + Failed(t, failing);
        assert RemoveFirst(s, h) == t;
      } else {
        SelectMembers(t, failing, true);
        EvictKeepsHead(h, t, Failed(t, failing));
      }
    }
  }

  /** Survivors of a sweep keep their relative order: filtering distributes over concatenation. */
  lemma KeepOrder(a: seq<ChannelId>, b: seq<ChannelId>, failing: set<ChannelId>)
    ensures Keep(a + b, failing) == Keep(a, failing) + Keep(b, failing)
  {
    SelectAppend(a, b, failing, false);
  }

  /** A set that no registered socket belongs to filters nothing out. */
  lemma {:induction false} KeepNone(s: seq<ChannelId>, failing: set<ChannelId>)
    requires forall c :: c in s ==> c !in failing
    ensures Keep(s, failing) == s
    decreases |s|
  {
    if s != [] {
      KeepNone(s[1..], failing);
    }
  }

  /** Removing the excluded socket from the failing set changes nothing when it is not registered. */
  lemma {:induction false} KeepIgnoresAbsent(s: seq<ChannelId>, failing: set<ChannelId>, exclude: ChannelId)
    requires exclude !in s
    ensures Keep(s, failing - {exclude}) == Keep(s, failing)
    decreases |s|
  {
    if s != [] {
      KeepIgnoresAbsent(s[1..], failing, exclude);
    }
  }

  /**
   * `broadcast_except` with a socket that is not registered sends the same texts to the
   * same sockets, and evicts the same ones, as `broadcast`.
   */
  lemma ExceptAbsentIsBroadcast(s: seq<ChannelId>, text: Payload, failing: set<ChannelId>, exclude: ChannelId)
    requires exclude !in s
    ensures Deliveries(Keep(s, {exclude}), text, failing) == Deliveries(s, text, failing)
    ensures Keep(s, failing - {exclude}) == Keep(s, failing)
  {
    KeepNone(s, {exclude});
    KeepIgnoresAbsent(s, failing, exclude);
  }

  /** `broadcast_except` never sends to the excluded socket, and never evicts it. */
  lemma ExcludedNeverTouched(s: seq<ChannelId>, text: Payload, failing: set<ChannelId>, exclude: ChannelId)
    ensures forall d :: d in Deliveries(Keep(s, {exclude}), text, failing) ==> d.to != exclude
    ensures exclude in s ==> exclude in Keep(s, failing - {exclude})
  {
    SelectMembers(s, {exclude}, false);
    SelectMembers(s, failing - {exclude}, false);
    var ds := Deliveries(Keep(s, {exclude}), text, failing);
    forall d | d in ds ensures d.to != exclude {
      var i :| 0 <= i < |ds| && ds[i] == d;
      assert d.to == Keep(s, {exclude})[i];
    }
  }

  class ConnectionManager {
    var activeConnections: seq<ChannelId>

    constructor ()
      ensures activeConnections == []
    {
      activeConnections := [];
    }

    /** `connect`: the socket (already accepted) becomes the last broadcast target. */
    method Connect(websocket: ChannelId)
      modifies this
      ensures activeConnections == old(activeConnections) + [websocket]
    {
      activeConnections := activeConnections + [websocket];
    }

    /** `disconnect`: drops the first occurrence; a socket that is not registered is ignored. */
    method Disconnect(websocket: ChannelId)
      modifies this
      ensures activeConnections == RemoveFirst(old(activeConnections), websocket)
    {
      if websocket in activeConnections {
        activeConnections := RemoveFirst(activeConnections, websocket);
      } else {
        RemoveAbsent(activeConnections, websocket);
      }
    }

    /**
     * `broadcast`: one send to every registered socket in order, none skipped after a failure;
     * afterwards exactly the sockets whose send failed are gone.
     */
    method Broadcast(message: Payload, failing: set<ChannelId>) returns (deliveries: seq<Delivery>)
      modifies this
      ensures deliveries == Deliveries(old(activeConnections), message, failing)
      ensures activeConnections == Keep(old(activeConnections), failing)
    {
      var disconnected;
      deliveries, disconnected := Sweep(message, {}, failing);
      KeepNone(activeConnections, {});
      assert failing - {} == failing;
      Evicting(disconnected);
      EvictFailed(old(activeConnections), failing);
    }

    /**
     * `broadcast_except`: as `broadcast`, but the excluded socket is skipped, so it is
     * neither sent to nor evicted.
     */
    method BroadcastExcept(message: Payload, exclude: ChannelId, failing: set<ChannelId>) returns (deliveries: seq<Delivery>)
      modifies this
      ensures deliveries == Deliveries(Keep(old(activeConnections), {exclude}), message, failing)
      ensures activeConnections == Keep(old(activeConnections), failing - {exclude})
    {
      var disconnected;
      deliveries, disconnected := Sweep(message, {exclude}, failing);
      Evicting(disconnected);
      EvictFailed(old(activeConnections), failing - {exclude});
    }

    /**
     * The send loop of both sweeps: every registered socket not in `skip` is sent the same
     * text in registration order; those whose send failed are collected, in order, for eviction.
     */
    method Sweep(messageText: Payload, skip: set<ChannelId>, failing: set<ChannelId>)
      returns (deliveries: seq<Delivery>, disconnected: seq<ChannelId>)
      ensures deliveries == Deliveries(Keep(activeConnections, skip), messageText, failing)
      ensures disconnected == Failed(activeConnections, failing - skip)
    {
      disconnected := [];
      deliveries := [];
      var i := 0;
      while i < |activeConnections|
        invariant 0 <= i <= |activeConnections|
        invariant deliveries == Deliveries(Keep(activeConnections[..i], skip), messageText, failing)
        invariant disconnected == Failed(activeConnections[..i], failing - skip)
      {
        var connection := activeConnections[i];
        ghost var done := activeConnections[..i];
        assert activeConnections[..i + 1] == done + [connection];
        SelectSnoc(done, connection, failing - skip, true);
        SelectSnoc(done, connection, skip, false);
        if connection !in skip {
          DeliveriesSnoc(Keep(done, skip), connection, messageText, failing);
          var sent := connection !in failing;
          deliveries := deliveries + [Delivery(connection, messageText, sent)];
          if !sent {
            disconnected := disconnected + [connection];
          }
        }
        i := i + 1;
      }
      assert activeConnections[..i] == activeConnections;
    }

    /** The clean-up loop shared by both sweeps: `disconnect` each collected socket in turn. */
    method Evicting(disconnected: seq<ChannelId>)
      modifies this
      ensures activeConnections == Evict(old(activeConnections), disconnected)
    {
      var k := 0;
      while k < |disconnected|
        invariant 0 <= k <= |disconnected|
        invariant Evict(activeConnections, disconnected[k..]) == Evict(old(activeConnections), disconnected)
      {
        assert disconnected[k..][1..] == disconnected[k + 1..];
        Disconnect(disconnected[k]);
        k := k + 1;
      }
    }

    /** `get_connection_count` */
    function GetConnectionCount(): (n: nat)
      reads this
      ensures n == |activeConnections|
    {
      |activeConnections|
    }
  }
}
