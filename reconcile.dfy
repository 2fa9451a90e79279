/**
 * The reconciliation of the inventory against the check dictionary: per host,
 * create a check, update the existing one, or do nothing.
 */
module Reconcile {

  import opened Options
  import opened Checks
  import opened Requests

  /**
   * One inventory host, from its `host_label` and `host_public_ip` entries
   * (a missing entry reads as "").
   */
  datatype Host = Host(hostLabel: string, hostPublicIp: string)

  /**
   * The decision for one host: PUT to `checks` when its label is not a key,
   * POST to `checks/<id>` when the label maps to a non-empty id, and nothing
   * when it maps to the "" sentinel.
   */
  function Decide(m: CheckMap, h: Host): (r: Option<Request>)
    ensures r.None? <==> h.hostLabel in m && m[h.hostLabel] == ""
    ensures r.Some? ==> r.value.verb != GET && r.value.body == HostBody(h.hostLabel, h.hostPublicIp)
    ensures r.Some? ==> (r.value.verb == PUT <==> h.hostLabel !in m)
    ensures r.Some? && r.value.verb == PUT ==> r.value.path == "checks"
    ensures r.Some? && r.value.verb == POST ==> h.hostLabel in m && r.value.path == "checks/" + m[h.hostLabel]
  {
    var body := HostBody(h.hostLabel, h.hostPublicIp);
    if h.hostLabel !in m then Some(Request(PUT, ChecksPath, body))
    else if m[h.hostLabel] != "" then Some(Request(POST, UpdatePath(m[h.hostLabel]), body))
    else None
  }

  /** The requests the host loop sends, in the order the hosts are visited. */
  function Plan(m: CheckMap, hosts: seq<Host>): (rs: seq<Request>)
    ensures |rs| <= |hosts|
  {
    if hosts == [] then []
    else ToSeq(Decide(m, hosts[0])) + Plan(m, hosts[1..])
  }

  /**
   * The host loop: visits the hosts one by one and records each request it
   * sends. The dictionary is a value here, so the loop cannot change it.
   */
  method ReconcileHosts(m: CheckMap, hosts: seq<Host>) returns (sent: seq<Request>)
    ensures sent == Plan(m, hosts)
  {
    sent := [];
    for i := 0 to |hosts|
      invariant sent == Plan(m, hosts[..i])
    {
      var h := hosts[i];
      PlanAppend(m, hosts[..i], [h]);
      assert hosts[..i + 1] == hosts[..i] + [h];
      if h.hostLabel !in m {
        sent := sent + [Request(PUT, ChecksPath, HostBody(h.hostLabel, h.hostPublicIp))];
      } else if m[h.hostLabel] != "" {
        sent := sent + [Request(POST, UpdatePath(m[h.hostLabel]), HostBody(h.hostLabel, h.hostPublicIp))];
      }
    }
    assert hosts[..|hosts|] == hosts;
  }

  /**
   * The whole run: list the checks, build the dictionary from the decoded
   * list, then reconcile the hosts. Returns every request sent, in order.
   */
  method Run(checks: seq<Check>, hosts: seq<Host>) returns (sent: seq<Request>, m: CheckMap)
    ensures m == BuildMap(checks)
    ensures |sent| >= 1 && sent[0] == ListChecks
    ensures sent[1..] == Plan(BuildMap(checks), hosts)
  {
    m := BuildCheckMap(checks);
    var updates := ReconcileHosts(m, hosts);
    sent := [ListChecks] + updates;
  }

  /** Hosts visited one after another send their requests one after another. */
  lemma {:induction false} PlanAppend(m: CheckMap, a: seq<Host>, b: seq<Host>)
    ensures Plan(m, a + b) == Plan(m, a) + Plan(m, b)
  {
    if a != [] {
      assert (a + b)[1..] == a[1..] + b;
      PlanAppend(m, a[1..], b);
    } else {
      assert a + b == b;
    }
  }

  /** A request is sent exactly when some host's decision is that request. */
  lemma {:induction false} PlanMembers(m: CheckMap, hosts: seq<Host>, r: Request)
    ensures r in Plan(m, hosts) <==> exists h :: h in hosts && Decide(m, h) == Some(r)
  {
    if hosts != [] {
      PlanMembers(m, hosts[1..], r);
      assert hosts == [hosts[0]] + hosts[1..];
      if r in Plan(m, hosts[1..]) {
        var h :| h in hosts[1..] && Decide(m, h) == Some(r);
        assert h in hosts;
      }
    }
  }

  /**
   * The inventory's order (Go map iteration order, which is unspecified)
   * changes only the order of the requests, never which requests are sent.
   */
  lemma {:induction false} PlanPermutation(m: CheckMap, a: seq<Host>, b: seq<Host>)
    requires multiset(a) == multiset(b)
    ensures multiset(Plan(m, a)) == multiset(Plan(m, b))
  {
    if a == [] {
      assert |b| == |multiset(b)| == 0;
    } else {
      var h := a[0];
      assert h in multiset(b);
      var j :| 0 <= j < |b| && b[j] == h;
      var rest := b[..j] + b[j + 1..];
      assert a == [h] + a[1..];
      assert multiset(a[1..]) == multiset(a) - multiset{h};
      RemoveAtMultiset(b, j);
      PlanPermutation(m, a[1..], rest);
      PlanRemoveAt(m, b, j);
    }
  }

  /** Taking one host out of the inventory takes one occurrence out of its multiset. */
  lemma RemoveAtMultiset(s: seq<Host>, j: int)
    requires 0 <= j < |s|
    ensures multiset(s[..j] + s[j + 1..]) == multiset(s) - multiset{s[j]}
  {
    assert s == s[..j] + [s[j]] + s[j + 1..];
  }

  /** Taking one host out of the inventory takes its own requests out of the plan. */
  lemma PlanRemoveAt(m: CheckMap, s: seq<Host>, j: int)
    requires 0 <= j < |s|
    ensures multiset(Plan(m, s)) ==
              multiset(ToSeq(Decide(m, s[j]))) + multiset(Plan(m, s[..j] + s[j + 1..]))
  {
    assert s == s[..j] + ([s[j]] + s[j + 1..]);
    PlanAppend(m, s[..j], [s[j]] + s[j + 1..]);
    PlanAppend(m, [s[j]], s[j + 1..]);
    PlanAppend(m, s[..j], s[j + 1..]);
    assert Plan(m, [s[j]]) == ToSeq(Decide(m, s[j]));
  }

  /**
   * The decision for a host stated against the check list itself: create when
   * no check has the host's label, update the last such check when it is
   * active with a non-empty id, and do nothing when it is paused or its id
   * is empty.
   */
  lemma DecideAgainstChecks(checks: seq<Check>, h: Host)
    ensures var i := LastIndex(checks, h.hostLabel);
            var body := HostBody(h.hostLabel, h.hostPublicIp);
            Decide(BuildMap(checks), h) ==
              if i < 0 then Some(Request(PUT, "checks", body))
              else if !checks[i].isPaused && checks[i].id != "" then Some(Request(POST, "checks/" + checks[i].id, body))
              else None
  {
    BuildMapLookup(checks, h.hostLabel);
  }

  /** A paused check is never updated: its host sends nothing. */
  lemma PausedIsSkipped(checks: seq<Check>, hosts: seq<Host>, h: Host)
    requires h in hosts
    requires h.hostLabel in Names(checks)
    requires checks[LastIndex(checks, h.hostLabel)].isPaused
    ensures Decide(BuildMap(checks), h).None?
    ensures forall r :: r in Plan(BuildMap(checks), hosts) ==> r.body != HostBody(h.hostLabel, h.hostPublicIp)
  {
    BuildMapSentinel(checks, h.hostLabel);
    forall r | r in Plan(BuildMap(checks), hosts)
      ensures r.body != HostBody(h.hostLabel, h.hostPublicIp)
    {
      PlanMembers(BuildMap(checks), hosts, r);
      var g :| g in hosts && Decide(BuildMap(checks), g) == Some(r);
      if r.body == HostBody(h.hostLabel, h.hostPublicIp) {
        HostBodyInjective(g.hostLabel, g.hostPublicIp, h.hostLabel, h.hostPublicIp);
        assert false;
      }
    }
  }

  /** A host is counted once per occurrence: the requests sent equal the hosts that act. */
  lemma {:induction false} PlanCount(m: CheckMap, hosts: seq<Host>)
    ensures |Plan(m, hosts)| == |hosts| - |ActionlessHosts(m, hosts)|
  {
    if hosts != [] {
      PlanCount(m, hosts[1..]);
    }
  }

  /** The hosts, in order, whose label maps to the "" sentinel. */
  function ActionlessHosts(m: CheckMap, hosts: seq<Host>): seq<Host>
  {
    if hosts == [] then []
    else (if hosts[0].hostLabel in m && m[hosts[0].hostLabel] == "" then [hosts[0]] else [])
         + ActionlessHosts(m, hosts[1..])
  }
}
