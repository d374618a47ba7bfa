/** How the server finds the method that a request asks for. */
module RpcLookup {
  import opened Basics

  /** The position of the last dot, or -1. */
  function LastDot(s: string): (i: int)
    ensures -1 <= i < |s|
  {
    if s == [] then -1 else if s[|s| - 1] == '.' then |s| - 1 else LastDot(s[..|s| - 1])
  }

  /** The error of `findService`, if any. */
  function FindError(services: map<string, set<string>>, serviceMethod: string): Option<string> {
    var dot := LastDot(serviceMethod);
    if dot < 0 then Some("rpc server: service method request ill-formed: " + serviceMethod)
    else
      var service, name := serviceMethod[..dot], serviceMethod[dot + 1..];
      if service !in services then Some("rpc server: can not find service: " + service)
      else if name !in services[service] then Some("rpc server: can not find method: " + name)
      else None
  }

  /** The parts of `service.name`: the name holds no dot, the service may. */
  predicate Splits(m: string, service: string, name: string) {
    m == service + "." + name && '.' !in name
  }

  predicate IsLastDot(m: string, d: nat) {
    d < |m| && m[d] == '.' && forall i :: d < i < |m| ==> m[i] != '.'
  }

  lemma {:induction false} LastDotIs(m: string)
    ensures if LastDot(m) < 0 then '.' !in m else IsLastDot(m, LastDot(m))
  {
    if m != [] && m[|m| - 1] != '.' {
      LastDotIs(m[..|m| - 1]);
    }
  }

  lemma SplitPoint(service: string, name: string)
    requires '.' !in name
    ensures IsLastDot(service + "." + name, |service|)
  {
    var m := service + "." + name;
    assert m == service + ("." + name);
    forall i | |service| < i < |m| ensures m[i] != '.' {
      assert m[i] == name[i - |service| - 1];
    }
  }

  lemma SplitsAtLastDot(m: string, service: string, name: string)
    ensures Splits(m, service, name) <==>
            LastDot(m) >= 0 && service == m[..LastDot(m)] && name == m[LastDot(m) + 1..]
  {
    LastDotIs(m);
    if Splits(m, service, name) {
      SplitPoint(service, name);
      assert LastDot(m) == |service|;
    } else if LastDot(m) >= 0 {
      assert m == m[..LastDot(m)] + "." + m[LastDot(m) + 1..];
    }
  }

  /** What a lookup says of every text there is. */
  lemma {:induction false} FindErrorIs(services: map<string, set<string>>, m: string)
    ensures '.' !in m ==> FindError(services, m) == Some("rpc server: service method request ill-formed: " + m)
    ensures forall service, name :: Splits(m, service, name) ==>
              FindError(services, m) ==
              if service !in services then Some("rpc server: can not find service: " + service)
              else if name !in services[service] then Some("rpc server: can not find method: " + name)
              else None
  {
    LastDotIs(m);
    forall service, name | Splits(m, service, name)
      ensures LastDot(m) >= 0 && service == m[..LastDot(m)] && name == m[LastDot(m) + 1..]
    {
      SplitsAtLastDot(m, service, name);
    }
  }

  /** The methods that exist: a name that some registered service has, behind the service and a dot. */
  ghost predicate IsRegistered(services: map<string, set<string>>, m: string) {
    exists service, name ::
      m == service + "." + name && '.' !in name && service in services && name in services[service]
  }

  /** A lookup succeeds exactly for the methods that exist. */
  lemma {:induction false} FoundIff(services: map<string, set<string>>, m: string)
    ensures FindError(services, m) == None <==> IsRegistered(services, m)
  {
    FindErrorIs(services, m);
    if LastDot(m) >= 0 {
      SplitsAtLastDot(m, m[..LastDot(m)], m[LastDot(m) + 1..]);
    }
    if IsRegistered(services, m) {
      var service, name :|
        m == service + "." + name && '.' !in name && service in services && name in services[service];
      assert Splits(m, service, name);
    }
  }
}
