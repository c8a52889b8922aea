/** The bare transfer patterns of the simulator driver (scratch/gpu-cluster-sim.cc): which pairs of
    ranks transfer, the byte total that is awaited, and the ledger that counts it. */
module TransferLedger {
  import opened Sequences

  datatype Pattern = P2p | Fanout | Incast

  const Max64 := 0xffff_ffff_ffff_ffff

  function U64(n: nat): (r: nat)
    ensures r <= Max64 && (n <= Max64 ==> r == n)
  {
    n % (Max64 + 1)
  }

  // ---- the flows

  /** What a pattern means: whether a pair of ranks is one of its flows. */
  predicate Intended(p: Pattern, root: nat, n: nat, src: nat, dst: nat)
    requires n > 0
  {
    match p
    case P2p => src == root && dst == (root + 1) % n
    case Fanout => src == root && dst < n && dst != root
    case Incast => dst == root && src < n && src != root
  }

  /** The flow list holds exactly the intended pairs, each once; with at least two ranks none of them
      is from a rank to itself. */
  method Flows(p: Pattern, root: nat, n: nat) returns (flows: seq<(nat, nat)>)
    requires n > 0
    ensures NoRepeats(flows)
    ensures forall src: nat, dst: nat :: (src, dst) in flows <==> Intended(p, root, n, src, dst)
    ensures root < n ==> |flows| == if p == P2p then 1 else n - 1
    ensures n >= 2 && root < n ==> forall i :: 0 <= i < |flows| ==> flows[i].0 != flows[i].1
  {
    flows := [];
    if p == P2p {
      flows := flows + [(root, (root + 1) % n)];
      NextRank(root, n);
      return;
    }
    var r := 0;
    while r < n
      invariant 0 <= r <= n
      invariant NoRepeats(flows)
      invariant forall src: nat, dst: nat :: (src, dst) in flows <==>
        Intended(p, root, n, src, dst) && (if p == Fanout then dst < r else src < r)
      invariant |flows| == if root < r then r - 1 else r
    {
      if r != root {
        flows := flows + [if p == Fanout then (root, r) else (r, root)];
      }
      r := r + 1;
    }
    forall i | 0 <= i < |flows| ensures flows[i].0 != flows[i].1 {
      assert (flows[i].0, flows[i].1) in flows;
    }
  }

  lemma NextRank(root: nat, n: nat)
    requires n > 0
    ensures n >= 2 && root < n ==> (root + 1) % n != root
  {
    if root + 1 < n {
    } else if root + 1 == n {
      assert (root + 1) % n == 0;
    }
  }

  // ---- the expected total

  /** The guard's refusal: nested divisions, so that nothing overflows in the test itself. */
  predicate Refused(flows: nat, dataSize: nat, iterations: nat)
    requires iterations > 0
  {
    dataSize != 0 && flows > Max64 / dataSize / iterations
  }

  lemma QuotientBound(a: nat, b: nat, q: nat)
    requires b > 0
    ensures q <= a / b <==> q * b <= a
  {
    var d := a / b;
    assert d * b <= a < (d + 1) * b;
    if q <= d {
      Monotone(q, d, b);
    } else {
      Monotone(d + 1, q, b);
    }
  }

  lemma Monotone(a: nat, b: nat, c: nat)
    requires a <= b
    ensures a * c <= b * c
  {
  }

  function Product(a: nat, b: nat): nat { a * b }

  function Total(flows: nat, dataSize: nat, iterations: nat): nat {
    Product(Product(flows, dataSize), iterations)
  }

  /** The guard lets a transfer through exactly when its byte total fits 64 bits. */
  lemma GuardIsExact(flows: nat, dataSize: nat, iterations: nat)
    requires iterations > 0
    ensures !Refused(flows, dataSize, iterations) <==> Total(flows, dataSize, iterations) <= Max64
  {
    if dataSize != 0 {
      QuotientBound(Max64 / dataSize, iterations, flows);
      QuotientBound(Max64, dataSize, Product(flows, iterations));
      assert Product(Product(flows, iterations), dataSize) == Total(flows, dataSize, iterations);
    } else {
      assert Product(flows, 0) == 0 && Product(0, iterations) == 0;
    }
  }

  /** The total as the code computes it, with 64-bit products. */
  function Computed(flows: nat, dataSize: nat, iterations: nat): nat {
    U64(Product(U64(Product(flows, dataSize)), iterations))
  }

  lemma ComputedIsTotal(flows: nat, dataSize: nat, iterations: nat)
    requires iterations > 0 && !Refused(flows, dataSize, iterations)
    ensures Computed(flows, dataSize, iterations) == Total(flows, dataSize, iterations)
  {
    GuardIsExact(flows, dataSize, iterations);
    Monotone(1, iterations, Product(flows, dataSize));
    assert Product(flows, dataSize) <= Total(flows, dataSize, iterations);
  }

  // ---- the ledger

  datatype Packet = Packet(data: bool, effective: nat, size: nat)

  function Bytes(p: Packet): nat {
    if !p.data then 0 else if p.effective == 0 then p.size else p.effective
  }

  /** A data packet counts for what it says it carries, or for its own size if it says nothing; no other
      packet counts. */
  lemma BytesAre(effective: nat, size: nat)
    ensures effective > 0 ==> Bytes(Packet(true, effective, size)) == effective
    ensures Bytes(Packet(true, 0, size)) == size && Bytes(Packet(false, effective, size)) == 0
  {
  }

  function Sum(ps: seq<Packet>): nat {
    if ps == [] then 0 else Sum(ps[..|ps| - 1]) + Bytes(ps[|ps| - 1])
  }

  class Ledger {
    const expected: nat
    var received: nat
    var fired: bool
    ghost var seen: seq<Packet>

    /** The ledger after the packets seen: the bytes counted, and completion reported exactly when a
        positive total has been reached. */
    ghost predicate Valid()
      reads this
    {
      && received == Sum(seen) <= Max64
      && (fired <==> expected > 0 && Sum(seen) >= expected)
    }

    constructor (total: nat)
      ensures Valid() && expected == total && seen == []
    {
      expected, received, fired, seen := total, 0, false, [];
    }

    /** PatternReceive: `now` tells whether this packet reports completion. */
    method PatternReceive(p: Packet) returns (now: bool)
      requires Valid() && Sum(seen + [p]) <= Max64
      modifies this
      ensures Valid() && seen == old(seen) + [p]
      ensures received == old(received) + (if !p.data then 0 else if p.effective > 0 then p.effective else p.size)
      ensures now <==> p.data && expected > 0 && received >= expected
      ensures fired == (old(fired) || now)
    {
      assert (seen + [p])[..|seen|] == seen;
      seen := seen + [p];
      now := false;
      if !p.data {
        return;
      }
      var bytes := p.effective;
      if bytes == 0 {
        bytes := p.size;
      }
      received := U64(received + bytes);
      if expected > 0 && received >= expected {
        now := true;
        fired := true;
      }
    }
  }

  lemma {:induction false} SumGrows(ps: seq<Packet>, k: nat)
    requires k <= |ps|
    ensures Sum(ps[..k]) <= Sum(ps)
  {
    if k == |ps| {
      assert ps[..k] == ps;
    } else {
      SumGrows(ps[..|ps| - 1], k);
      assert ps[..|ps| - 1][..k] == ps[..k];
    }
  }

  /** When every byte of the total is delivered exactly once, the packet that completes the transfer
      is the one that brings the last byte: before it the total is not reached, and with it nothing
      is missing. */
  lemma {:induction false} CompletesOnLastByte(ps: seq<Packet>, expected: nat) returns (k: nat)
    requires expected > 0 && Sum(ps) == expected
    ensures k < |ps| && ps[k].data && Bytes(ps[k]) > 0
    ensures Sum(ps[..k]) < expected == Sum(ps[..k + 1])
    ensures forall j :: 0 <= j <= |ps| ==> (Sum(ps[..j]) >= expected <==> j > k)
  {
    var last := |ps| - 1;
    assert ps[..|ps|] == ps;
    if Bytes(ps[last]) > 0 {
      k := last;
      forall j | 0 <= j <= last ensures Sum(ps[..j]) < expected {
        SumGrows(ps[..last], j);
        assert ps[..last][..j] == ps[..j];
      }
    } else {
      k := CompletesOnLastByte(ps[..last], expected);
      assert ps[..last][..k] == ps[..k] && ps[..last][..k + 1] == ps[..k + 1];
      forall j | 0 <= j <= |ps| ensures Sum(ps[..j]) >= expected <==> j > k {
        if j <= last {
          assert ps[..last][..j] == ps[..j];
        }
      }
    }
  }

  // ---- from the flows to the ledger

  /** A packet as it arrives, with the flow and the work request of the flow that it belongs to. */
  datatype Delivery = Delivery(flow: nat, request: nat, packet: Packet)

  function Packets(ds: seq<Delivery>): seq<Packet> {
    seq(|ds|, i requires 0 <= i < |ds| => ds[i].packet)
  }

  /** The bytes delivered for one request of one flow. */
  function Delivered(ds: seq<Delivery>, f: nat, r: nat): nat {
    if ds == [] then 0
    else
      var d := ds[|ds| - 1];
      Delivered(ds[..|ds| - 1], f, r) + if d.flow == f && d.request == r then Bytes(d.packet) else 0
  }

  /** Every request of every flow has delivered exactly the bytes it was to transfer, and nothing else
      arrived. */
  ghost predicate EachByteOnce(ds: seq<Delivery>, flows: nat, requests: nat, dataSize: nat) {
    && (forall i :: 0 <= i < |ds| ==> ds[i].flow < flows && ds[i].request < requests)
    && (forall f: nat, r: nat :: f < flows && r < requests ==> Delivered(ds, f, r) == dataSize)
  }

  // Sums over the first requests of a flow, and over the first flows.
  ghost function OfFlow(ds: seq<Delivery>, f: nat, requests: nat): nat {
    if requests == 0 then 0 else OfFlow(ds, f, requests - 1) + Delivered(ds, f, requests - 1)
  }

  ghost function OfFlows(ds: seq<Delivery>, flows: nat, requests: nat): nat {
    if flows == 0 then 0 else OfFlows(ds, flows - 1, requests) + OfFlow(ds, flows - 1, requests)
  }

  lemma {:induction false} FlowGrows(ds: seq<Delivery>, f: nat, requests: nat)
    requires ds != []
    ensures var d := ds[|ds| - 1];
      OfFlow(ds, f, requests) == OfFlow(ds[..|ds| - 1], f, requests)
        + if d.flow == f && d.request < requests then Bytes(d.packet) else 0
  {
    if requests > 0 {
      FlowGrows(ds, f, requests - 1);
    }
  }

  lemma {:induction false} FlowsGrow(ds: seq<Delivery>, flows: nat, requests: nat)
    requires ds != []
    ensures var d := ds[|ds| - 1];
      OfFlows(ds, flows, requests) == OfFlows(ds[..|ds| - 1], flows, requests)
        + if d.flow < flows && d.request < requests then Bytes(d.packet) else 0
  {
    if flows > 0 {
      FlowsGrow(ds, flows - 1, requests);
      FlowGrows(ds, flows - 1, requests);
    }
  }

  lemma {:induction false} NothingOfFlow(f: nat, requests: nat)
    ensures OfFlow([], f, requests) == 0
  {
    if requests > 0 {
      NothingOfFlow(f, requests - 1);
    }
  }

  lemma {:induction false} NothingOfFlows(flows: nat, requests: nat)
    ensures OfFlows([], flows, requests) == 0
  {
    if flows > 0 {
      NothingOfFlows(flows - 1, requests);
      NothingOfFlow(flows - 1, requests);
    }
  }

  lemma {:induction false} SumByFlows(ds: seq<Delivery>, flows: nat, requests: nat)
    requires forall i :: 0 <= i < |ds| ==> ds[i].flow < flows && ds[i].request < requests
    ensures Sum(Packets(ds)) == OfFlows(ds, flows, requests)
  {
    if ds == [] {
      NothingOfFlows(flows, requests);
    } else {
      var front := ds[..|ds| - 1];
      SumByFlows(front, flows, requests);
      FlowsGrow(ds, flows, requests);
      assert Packets(ds)[..|ds| - 1] == Packets(front);
    }
  }

  lemma {:induction false} FlowTotal(ds: seq<Delivery>, f: nat, requests: nat, dataSize: nat)
    requires forall r: nat :: r < requests ==> Delivered(ds, f, r) == dataSize
    ensures OfFlow(ds, f, requests) == Product(requests, dataSize)
  {
    if requests > 0 {
      FlowTotal(ds, f, requests - 1, dataSize);
      assert Product(requests, dataSize) == Product(requests - 1, dataSize) + dataSize;
    }
  }

  lemma {:induction false} FlowsTotal(ds: seq<Delivery>, flows: nat, requests: nat, dataSize: nat)
    requires forall f: nat, r: nat :: f < flows && r < requests ==> Delivered(ds, f, r) == dataSize
    ensures OfFlows(ds, flows, requests) == Product(flows, Product(requests, dataSize))
  {
    if flows > 0 {
      FlowsTotal(ds, flows - 1, requests, dataSize);
      FlowTotal(ds, flows - 1, requests, dataSize);
      assert Product(flows, Product(requests, dataSize))
          == Product(flows - 1, Product(requests, dataSize)) + Product(requests, dataSize);
    }
  }

  lemma Reordered(a: nat, b: nat, c: nat)
    ensures Product(a, Product(b, c)) == Product(Product(a, c), b)
  {
  }

  /** For any pattern past the guard, in whatever order and pieces the bytes of its flows arrive: if
      every request of every flow delivers each of its bytes exactly once, the total the ledger
      awaits is first reached by the packet that brings the last byte. */
  lemma PatternCompletes(ds: seq<Delivery>, flows: nat, requests: nat, dataSize: nat) returns (k: nat)
    requires flows > 0 && requests > 0 && dataSize > 0 && !Refused(flows, dataSize, requests)
    requires EachByteOnce(ds, flows, requests, dataSize)
    ensures var expected := Computed(flows, dataSize, requests); var ps := Packets(ds);
      && expected > 0
      && k < |ps| && ps[k].data && Bytes(ps[k]) > 0
      && Sum(ps) == expected
      && forall j :: 0 <= j <= |ps| ==> (Sum(ps[..j]) >= expected <==> j > k)
  {
    var ps := Packets(ds);
    SumByFlows(ds, flows, requests);
    FlowsTotal(ds, flows, requests, dataSize);
    Reordered(flows, requests, dataSize);
    ComputedIsTotal(flows, dataSize, requests);
    TotalPositive(flows, dataSize, requests);
    k := CompletesOnLastByte(ps, Computed(flows, dataSize, requests));
  }

  lemma TotalPositive(a: nat, b: nat, c: nat)
    requires a > 0 && b > 0 && c > 0
    ensures Total(a, b, c) > 0
  {
    Monotone(1, a, b);
    Monotone(1, Product(a, b), c);
  }
}
