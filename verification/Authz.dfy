/** Which workload may call which method. */
module Authz {
  import opened Outcomes
  import opened Spiffe
  import opened Text
  import Envelope

  datatype Workload = Workload(namespace: string, serviceAccount: string)

  /** The policy entry every verified workload meets. */
  const ANY_AUTHENTICATED := Workload("*", "*")

  type Policy = map<string, seq<Workload>>

  datatype Defect = BadTrustDomain | BadMethod(name: string) | NobodyAllowed(name: string) | BadWorkload(name: string)

  datatype Authorizer = Authorizer(trustDomain: string, policy: Policy)

  /** The shape /package.Service/Method. */
  predicate MethodName(s: string) { s != [] && s[0] == '/' && Count(s, '/') == 2 }

  /** By its full name, or everyone; there are no half wildcards. */
  predicate WorkloadEntry(w: Workload) {
    w == ANY_AUTHENTICATED || (Envelope.Label(w.namespace) && Envelope.Label(w.serviceAccount))
  }

  predicate AllEntries(allowed: seq<Workload>) { forall i :: 0 <= i < |allowed| ==> WorkloadEntry(allowed[i]) }

  predicate PolicyEntry(name: string, allowed: seq<Workload>) { MethodName(name) && allowed != [] && AllEntries(allowed) }

  /** NewAuthorizer: the loops over the policy and over each entry. Which of
      several defects is told depends on the order of the map. */
  method NewAuthorizer(trustDomain: string, policy: Policy) returns (r: Result<Authorizer, Defect>)
    ensures r.Ok? <==> ValidTrustDomain(trustDomain) && forall m :: m in policy ==> PolicyEntry(m, policy[m])
    ensures r.Ok? ==> r.value == Authorizer(trustDomain, policy)
    ensures r.Err? && !r.error.BadTrustDomain? ==> r.error.name in policy && !PolicyEntry(r.error.name, policy[r.error.name])
    ensures r.Err? && r.error.BadTrustDomain? ==> !ValidTrustDomain(trustDomain)
  {
    if !ValidTrustDomain(trustDomain) {
      return Err(Defect.BadTrustDomain);
    }
    var todo := policy.Keys;
    while todo != {}
      invariant todo <= policy.Keys
      invariant forall m :: m in policy && m !in todo ==> PolicyEntry(m, policy[m])
      decreases todo
    {
      var name :| name in todo;
      if !MethodName(name) {
        return Err(BadMethod(name));
      }
      var allowed := policy[name];
      if allowed == [] {
        return Err(NobodyAllowed(name));
      }
      var good := CheckEntries(allowed);
      if !good {
        return Err(BadWorkload(name));
      }
      todo := todo - {name};
    }
    return Ok(Authorizer(trustDomain, policy));
  }

  method CheckEntries(allowed: seq<Workload>) returns (good: bool)
    ensures good <==> AllEntries(allowed)
  {
    var i := 0;
    while i < |allowed|
      invariant 0 <= i <= |allowed|
      invariant forall j :: 0 <= j < i ==> WorkloadEntry(allowed[j])
    {
      var w := allowed[i];
      if w != ANY_AUTHENTICATED && (!Envelope.Label(w.namespace) || !Envelope.Label(w.serviceAccount)) {
        return false;
      }
      i := i + 1;
    }
    return true;
  }

  /** What the server has registered: per service the names of its methods. */
  type Services = map<string, seq<string>>

  function FullName(service: string, name: string): string { "/" + service + "/" + name }

  ghost function MethodsOf(service: string, names: seq<string>): set<string> { set n | n in names :: FullName(service, n) }

  ghost function Registered(services: Services): set<string> {
    set s, n | s in services && n in services[s] :: FullName(s, n)
  }

  ghost function Elements(s: seq<string>): set<string> { set x | x in s }

  /** The inner loop of Check, over the methods of one service. */
  method CheckService(policy: Policy, service: string, names: seq<string>, before: set<string>, lacking: seq<string>)
    returns (registered: set<string>, missing: seq<string>)
    ensures registered == before + MethodsOf(service, names)
    ensures Elements(missing) == Elements(lacking) + (MethodsOf(service, names) - policy.Keys)
  {
    registered, missing := before, lacking;
    var i := 0;
    while i < |names|
      invariant 0 <= i <= |names|
      invariant registered == before + MethodsOf(service, names[..i])
      invariant Elements(missing) == Elements(lacking) + (MethodsOf(service, names[..i]) - policy.Keys)
    {
      var full := FullName(service, names[i]);
      OneMethodMore(service, names, i);
      registered := registered + {full};
      if full !in policy {
        ElementsOfAppend(missing, full);
        missing := missing + [full];
      }
      i := i + 1;
    }
    assert names[..i] == names;
  }

  lemma OneMethodMore(service: string, names: seq<string>, i: nat)
    requires i < |names|
    ensures MethodsOf(service, names[..i + 1]) == MethodsOf(service, names[..i]) + {FullName(service, names[i])}
  {
    assert names[..i + 1] == names[..i] + [names[i]];
  }

  lemma ElementsOfAppend(s: seq<string>, x: string)
    ensures Elements(s + [x]) == Elements(s) + {x}
  {
  }

  /** The methods of the services already looked at. */
  ghost function RegisteredBut(services: Services, todo: set<string>): set<string> {
    set s, n | s in services && s !in todo && n in services[s] :: FullName(s, n)
  }

  lemma OneServiceMore(services: Services, todo: set<string>, s: string)
    requires s in services && s in todo
    ensures RegisteredBut(services, todo - {s}) == RegisteredBut(services, todo) + MethodsOf(s, services[s])
  {
  }

  /** Authorizer.Check: the registered methods without an entry and the entries
      without a method; clean exactly when there are none. */
  method Check(a: Authorizer, services: Services) returns (clean: bool, missing: seq<string>, stale: seq<string>)
    ensures Elements(missing) == Registered(services) - a.policy.Keys
    ensures Elements(stale) == a.policy.Keys - Registered(services)
    ensures clean <==> Registered(services) == a.policy.Keys
  {
    missing, stale := [], [];
    var registered: set<string> := {};
    var todo := services.Keys;
    assert RegisteredBut(services, todo) == {};
    while todo != {}
      invariant todo <= services.Keys && registered == RegisteredBut(services, todo)
      invariant Elements(missing) == registered - a.policy.Keys
      decreases todo
    {
      var s :| s in todo;
      OneServiceMore(services, todo, s);
      registered, missing := CheckService(a.policy, s, services[s], registered, missing);
      todo := todo - {s};
    }
    assert registered == Registered(services);
    var entries := a.policy.Keys;
    while entries != {}
      invariant entries <= a.policy.Keys && Elements(stale) == a.policy.Keys - entries - registered
      decreases entries
    {
      var m :| m in entries;
      if m !in registered {
        ElementsOfAppend(stale, m);
        stale := stale + [m];
      }
      entries := entries - {m};
    }
    clean := |missing| == 0 && |stale| == 0;
    NoElements(missing);
    NoElements(stale);
  }

  lemma NoElements(s: seq<string>)
    ensures Elements(s) == {} <==> |s| == 0
  {
    if |s| > 0 {
      assert s[0] in Elements(s);
    }
  }

  /** Some entry of the method admits the workload. */
  predicate Admits(w: Workload, p: Principal) {
    w == ANY_AUTHENTICATED || (w.namespace == p.namespace && w.serviceAccount == p.serviceAccount)
  }

  ghost predicate AllowedBy(a: Authorizer, name: string, p: Principal) {
    p.trustDomain == a.trustDomain && name in a.policy && exists w :: w in a.policy[name] && Admits(w, p)
  }

  /** Authorizer.Allowed; a method without an entry reads as an empty one. */
  method Allowed(a: Authorizer, name: string, p: Principal) returns (yes: bool)
    ensures yes <==> AllowedBy(a, name, p)
  {
    if p.trustDomain != a.trustDomain {
      return false;
    }
    var entry := if name in a.policy then a.policy[name] else [];
    var i := 0;
    while i < |entry|
      invariant 0 <= i <= |entry|
      invariant forall j :: 0 <= j < i ==> !Admits(entry[j], p)
    {
      if Admits(entry[i], p) {
        assert entry[i] in a.policy[name];
        return true;
      }
      i := i + 1;
    }
    return false;
  }

  /** What the transport says of a call: no peer, no or another transport
      identity, or the one of these credentials, made from the leaf's URIs. */
  datatype AuthInfo = NoPeer | NoInfo | OtherInfo | PeerInfo(identity: Result<Principal, Refusal>)

  datatype Decision = Permitted | Unauthenticated | PermissionDenied

  /** authz.Caller. */
  function Caller(info: AuthInfo): Option<Principal> {
    if info.PeerInfo? && info.identity.Ok? then Some(info.identity.value) else None
  }

  /** Authorizer.Authorize. */
  method Authorize(a: Authorizer, info: AuthInfo, name: string) returns (d: Decision)
    ensures d.Permitted? <==> Caller(info).Some? && AllowedBy(a, name, Caller(info).value)
    ensures d.Unauthenticated? <==> Caller(info).None?
  {
    if !info.PeerInfo? || info.identity.Err? {
      return Unauthenticated;
    }
    var yes := Allowed(a, name, info.identity.value);
    return if yes then Permitted else PermissionDenied;
  }

  /** With a policy NewAuthorizer took and Check found clean, every registered
      method admits some workload of the trust domain, and a method that is not
      registered admits none. */
  lemma EveryRegisteredMethodIsReachable(a: Authorizer, services: Services, name: string) returns (p: Principal)
    requires ValidTrustDomain(a.trustDomain) && forall m :: m in a.policy ==> PolicyEntry(m, a.policy[m])
    requires Registered(services) == a.policy.Keys
    ensures Valid(p) && p.trustDomain == a.trustDomain
    ensures name in Registered(services) <==> AllowedBy(a, name, p)
    ensures name !in Registered(services) ==> forall q :: !AllowedBy(a, name, q)
  {
    p := Principal(a.trustDomain, "a", "a");
    if name in a.policy {
      var w := a.policy[name][0];
      assert WorkloadEntry(w);
      if w != ANY_AUTHENTICATED {
        p := Principal(a.trustDomain, w.namespace, w.serviceAccount);
      }
      assert w in a.policy[name] && Admits(w, p);
    }
  }

  /** End to end: a call is permitted exactly when the verified leaf carries one
      URI, that of a workload of the server's trust domain, and the method's
      entry names this very workload or admits everyone. */
  lemma PermittedExactly(a: Authorizer, uris: Option<seq<Url>>, name: string)
    requires ValidTrustDomain(a.trustDomain) && forall m :: m in a.policy ==> PolicyEntry(m, a.policy[m])
    ensures (PeerPrincipal(uris).Ok? && AllowedBy(a, name, PeerPrincipal(uris).value)) <==>
            && uris.Some? && |uris.value| == 1 && Plain(uris.value[0]) && uris.value[0].host == a.trustDomain
            && name in a.policy
            && exists ns, sa :: && Envelope.Label(ns) && Envelope.Label(sa)
                                && uris.value[0].path == PathOf(Principal(a.trustDomain, ns, sa))
                                && (ANY_AUTHENTICATED in a.policy[name] || Workload(ns, sa) in a.policy[name])
  {
    if uris.Some? && |uris.value| == 1 {
      var u := uris.value[0];
      ParsedExactly(u);
      if PeerPrincipal(uris).Ok? {
        EntryNamesCaller(a, name, PeerPrincipal(uris).value);
      }
      forall ns, sa | Plain(u) && u.host == a.trustDomain && Envelope.Label(ns) && Envelope.Label(sa)
          && u.path == PathOf(Principal(a.trustDomain, ns, sa))
        ensures ParseSPIFFE(Some(u)) == Ok(Principal(a.trustDomain, ns, sa))
      {
        AcceptedRecord(u, Principal(a.trustDomain, ns, sa));
      }
    }
  }

  lemma EntryNamesCaller(a: Authorizer, name: string, p: Principal)
    ensures AllowedBy(a, name, p) <==>
            p.trustDomain == a.trustDomain && name in a.policy
            && (ANY_AUTHENTICATED in a.policy[name] || Workload(p.namespace, p.serviceAccount) in a.policy[name])
  {
    if AllowedBy(a, name, p) {
      var w :| w in a.policy[name] && Admits(w, p);
    } else if name in a.policy {
      assert Admits(ANY_AUTHENTICATED, p) && Admits(Workload(p.namespace, p.serviceAccount), p);
    }
  }
}
