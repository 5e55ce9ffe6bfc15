/** Which ports of a service are optimised. The controller matches ports by a printed key. */
module Ports {

  /** A port as the optimizer's spec requests it. */
  datatype RequestedPort = RequestedPort(number: int, protocol: string)

  datatype ServicePort = ServicePort(name: string, port: int, protocol: string)

  /** `normalizeProtocol`; `lower` is the lower-casing of strings, left open here. */
  function NormalizeProtocol(lower: string -> string, protocol: string): string {
    var l := lower(protocol);
    if l == "http" || l == "grpc" then "tcp" else l
  }

  /** Two protocols are the same to the controller if they are, in lower case, or if both name
      a protocol that runs over TCP. */
  lemma ProtocolsAgree(lower: string -> string, p: string, q: string)
    ensures NormalizeProtocol(lower, p) == NormalizeProtocol(lower, q) <==>
            lower(p) == lower(q) ||
            (lower(p) in {"http", "grpc", "tcp"} && lower(q) in {"http", "grpc", "tcp"})
  {
    assert "http" != "tcp" && "grpc" != "tcp";
  }

  /** `%d`. */
  function Decimal(n: int): string {
    if n < 0 then "-" + Digits(-n) else Digits(n)
  }

  function Digits(n: nat): string {
    if n < 10 then ["0123456789"[n]] else Digits(n / 10) + ["0123456789"[n % 10]]
  }

  function Key(number: int, protocol: string): string {
    Decimal(number) + "/" + protocol
  }

  lemma {:induction false} DigitsArePlain(n: nat)
    ensures Digits(n) != [] && Digits(n)[0] != '-' && '/' !in Digits(n)
  {
    var d := "0123456789"[n % 10];
    assert d != '/' && d != '-';
    if n >= 10 { DigitsArePlain(n / 10); }
  }

  lemma {:induction false} DigitsInjective(m: nat, n: nat)
    requires Digits(m) == Digits(n)
    ensures m == n
  {
    DigitsArePlain(m / 10);
    DigitsArePlain(n / 10);
    LastDigit(m);
    LastDigit(n);
    DigitOf(m % 10, n % 10);
    if m >= 10 && n >= 10 {
      assert Digits(m)[..|Digits(m)| - 1] == Digits(m / 10);
      assert Digits(n)[..|Digits(n)| - 1] == Digits(n / 10);
      DigitsInjective(m / 10, n / 10);
    }
  }

  lemma LastDigit(n: nat)
    ensures Digits(n) != [] && Digits(n)[|Digits(n)| - 1] == "0123456789"[n % 10]
    ensures |Digits(n)| == 1 <==> n < 10
  {
    if n >= 10 { DigitsArePlain(n / 10); }
  }

  lemma DigitOf(i: nat, j: nat)
    requires i < 10 && j < 10 && "0123456789"[i] == "0123456789"[j]
    ensures i == j
  {
  }

  lemma DecimalInjective(m: int, n: int)
    requires Decimal(m) == Decimal(n)
    ensures m == n
  {
    DigitsArePlain(if m < 0 then -m else m);
    DigitsArePlain(if n < 0 then -n else n);
    assert (m < 0) == (n < 0) by {
      assert Decimal(m)[0] == Decimal(n)[0];
    }
    if m < 0 {
      assert Digits(-m) == Decimal(m)[1..];
      assert Digits(-n) == Decimal(n)[1..];
      DigitsInjective(-m, -n);
    } else {
      DigitsInjective(m, n);
    }
  }

  lemma DecimalHasNoSlash(n: int)
    ensures '/' !in Decimal(n)
  {
    DigitsArePlain(if n < 0 then -n else n);
  }

  lemma NoSlashBefore(a: string, p: string, k: nat)
    requires '/' !in a
    ensures k < |a| ==> (a + "/" + p)[k] != '/'
  {
    assert k < |a| ==> (a + "/" + p)[k] == a[k];
  }

  /** The first slash separates. */
  lemma SplitAtSlash(a: string, p: string, b: string, q: string)
    requires '/' !in a && '/' !in b && a + "/" + p == b + "/" + q
    ensures a == b && p == q
  {
    var x, y := a + "/" + p, b + "/" + q;
    assert x[|a|] == '/' && y[|b|] == '/';
    NoSlashBefore(b, q, |a|);
    NoSlashBefore(a, p, |b|);
    assert a == x[..|a|] && b == y[..|b|];
    assert p == x[|a| + 1..] && q == y[|b| + 1..];
  }

  /** The printed key determines the number and the protocol, whatever the protocol is, even
      one with a slash in it. */
  lemma KeyInjective(m: int, p: string, n: int, q: string)
    requires Key(m, p) == Key(n, q)
    ensures m == n && p == q
  {
    DecimalHasNoSlash(m);
    DecimalHasNoSlash(n);
    SplitAtSlash(Decimal(m), p, Decimal(n), q);
    DecimalInjective(m, n);
  }

  predicate Matches(lower: string -> string, r: RequestedPort, p: ServicePort) {
    r.number == p.port && NormalizeProtocol(lower, r.protocol) == NormalizeProtocol(lower, p.protocol)
  }

  /** Some requested port matches a service port by number and normalised protocol. */
  predicate Requested(lower: string -> string, requested: seq<RequestedPort>, p: ServicePort) {
    exists i :: 0 <= i < |requested| && Matches(lower, requested[i], p)
  }

  /** The service ports that match some requested port, in the service's order. */
  function Selected(lower: string -> string, requested: seq<RequestedPort>, ports: seq<ServicePort>): seq<ServicePort> {
    if ports == [] then []
    else
      Selected(lower, requested, ports[..|ports| - 1])
      + if Requested(lower, requested, ports[|ports| - 1]) then [ports[|ports| - 1]] else []
  }

  /** The number is the same, and the protocol is, in lower case or as one that runs over TCP. */
  predicate Asked(lower: string -> string, r: RequestedPort, p: ServicePort) {
    r.number == p.port &&
    (lower(r.protocol) == lower(p.protocol) ||
     (lower(r.protocol) in {"http", "grpc", "tcp"} && lower(p.protocol) in {"http", "grpc", "tcp"}))
  }

  ghost predicate IsAsked(lower: string -> string, requested: seq<RequestedPort>, p: ServicePort) {
    exists i :: 0 <= i < |requested| && Asked(lower, requested[i], p)
  }

  lemma RequestedMeansAsked(lower: string -> string, requested: seq<RequestedPort>, p: ServicePort)
    ensures Requested(lower, requested, p) <==> IsAsked(lower, requested, p)
  {
    hide NormalizeProtocol;
    forall i | 0 <= i < |requested| ensures Matches(lower, requested[i], p) <==> Asked(lower, requested[i], p) {
      ProtocolsAgree(lower, requested[i].protocol, p.protocol);
    }
  }

  /** `selected` are the ports at `positions`, which ascend and are exactly those of the ports
      that are asked for. */
  ghost predicate Picks(lower: string -> string, requested: seq<RequestedPort>, ports: seq<ServicePort>,
                        selected: seq<ServicePort>, positions: seq<nat>)
  {
    (forall i, j :: 0 <= i < j < |positions| ==> positions[i] < positions[j]) &&
    (forall k: nat :: k in positions <==> k < |ports| && IsAsked(lower, requested, ports[k])) &&
    |selected| == |positions| &&
    forall i :: 0 <= i < |positions| ==> positions[i] < |ports| && selected[i] == ports[positions[i]]
  }

  lemma PicksSnoc(lower: string -> string, requested: seq<RequestedPort>, ports: seq<ServicePort>,
                  selected: seq<ServicePort>, positions: seq<nat>, x: ServicePort)
    requires Picks(lower, requested, ports, selected, positions)
    ensures if IsAsked(lower, requested, x) then Picks(lower, requested, ports + [x], selected + [x], positions + [|ports|])
            else Picks(lower, requested, ports + [x], selected, positions)
  {
    hide IsAsked;
    forall i | 0 <= i < |positions| ensures positions[i] < |ports| {}
    forall k: nat | k < |ports| ensures (ports + [x])[k] == ports[k] {}
    assert (ports + [x])[|ports|] == x;
    var longer := positions + [|ports|];
    forall k: nat ensures k in longer <==> k in positions || k == |ports| {}
  }

  lemma {:induction false} SelectedPicks(lower: string -> string, requested: seq<RequestedPort>,
                                         ports: seq<ServicePort>) returns (positions: seq<nat>)
    ensures Picks(lower, requested, ports, Selected(lower, requested, ports), positions)
  {
    if ports == [] {
      positions := [];
    } else {
      hide Picks, IsAsked, Requested;
      var front, x := ports[..|ports| - 1], ports[|ports| - 1];
      positions := SelectedPicks(lower, requested, front);
      RequestedMeansAsked(lower, requested, x);
      PicksSnoc(lower, requested, front, Selected(lower, requested, front), positions, x);
      assert ports == front + [x];
      if IsAsked(lower, requested, x) {
        positions := positions + [|front|];
      } else {
        assert Selected(lower, requested, ports) == Selected(lower, requested, front);
      }
    }
  }

  function KeyOf(lower: string -> string, r: RequestedPort): string {
    Key(r.number, NormalizeProtocol(lower, r.protocol))
  }

  method RequestedKeys(lower: string -> string, requested: seq<RequestedPort>) returns (keys: set<string>)
    ensures forall k :: k in keys <==> exists j :: 0 <= j < |requested| && k == KeyOf(lower, requested[j])
  {
    hide KeyOf;
    keys := {};
    for i := 0 to |requested|
      invariant forall k :: k in keys <==> exists j :: 0 <= j < i && k == KeyOf(lower, requested[j])
    {
      keys := keys + {KeyOf(lower, requested[i])};
    }
  }

  /** `collectPortsToProcess`: matching by key selects exactly the ports that match by number
      and normalised protocol; without requested ports all ports are taken. */
  method CollectPortsToProcess(lower: string -> string, requested: seq<RequestedPort>, ports: seq<ServicePort>)
    returns (selected: seq<ServicePort>)
    ensures requested != [] ==> exists positions :: Picks(lower, requested, ports, selected, positions)
    ensures selected == if requested == [] then ports else Selected(lower, requested, ports)
  {
    ghost var positions := SelectedPicks(lower, requested, ports);
    hide Key, KeyOf, NormalizeProtocol, Requested, Picks;
    selected := [];
    if |requested| > 0 {
      var keys := RequestedKeys(lower, requested);
      for i := 0 to |ports|
        invariant selected == Selected(lower, requested, ports[..i])
      {
        KeyMeansRequested(lower, requested, ports[i]);
        if Key(ports[i].port, NormalizeProtocol(lower, ports[i].protocol)) in keys {
          selected := selected + [ports[i]];
        }
        assert ports[..i + 1][..i] == ports[..i];
      }
      assert ports[..|ports|] == ports;
      return;
    }
    return ports;
  }

  lemma KeyMeansRequested(lower: string -> string, requested: seq<RequestedPort>, p: ServicePort)
    ensures Requested(lower, requested, p) <==>
            exists j :: 0 <= j < |requested| &&
              Key(p.port, NormalizeProtocol(lower, p.protocol)) == KeyOf(lower, requested[j])
  {
    hide Key, NormalizeProtocol;
    forall j | 0 <= j < |requested| &&
      Key(p.port, NormalizeProtocol(lower, p.protocol)) == KeyOf(lower, requested[j])
      ensures Requested(lower, requested, p)
    {
      KeyInjective(p.port, NormalizeProtocol(lower, p.protocol),
                   requested[j].number, NormalizeProtocol(lower, requested[j].protocol));
      assert Matches(lower, requested[j], p);
    }
    if i :| 0 <= i < |requested| && Matches(lower, requested[i], p) {
      assert Key(p.port, NormalizeProtocol(lower, p.protocol)) == KeyOf(lower, requested[i]);
    }
  }
}
