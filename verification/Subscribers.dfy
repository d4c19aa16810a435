/** The registry of FanOut's runs is the registry of the subscriber side: its moves are calls of
    SafeNtripMap, and whom a broadcast sets out to reach are the beans of the mount. */
module Subscribers {
  import opened FanOut
  import opened Registry
  import Beans = ChannelBean

  /** The first index holds the beans of the registered subscribers under the same keys; each
      bean has its subscriber's mount and a connection. */
  ghost predicate Mirrors(data: Index, s: System, beans: map<nat, Beans.Bean>) {
    && data.Keys == s.registry.Keys
    && forall k | k in s.registry ::
         && s.registry[k] in s.subs && s.registry[k] in beans && data[k] == beans[s.registry[k]]
         && data[k].mount == s.subs[s.registry[k]].mount && data[k].conn != null
  }

  /** Register, Unregister and Clear do to the registry just what Set, Delete and CloseAll do. */
  method PerformMove(registry: SafeNtripMap, ghost s: System, m: Move, key: string, bean: Beans.Bean,
                     ghost beans: map<nat, Beans.Bean>)
    requires registry.Valid() && Mirrors(registry.data, s, beans) && Enabled(s, m)
    requires m.Register? || m.Unregister? || m.Clear?
    requires m.Register? ==>
               && m.id in beans && bean == beans[m.id] && key == s.subs[m.id].key
               && bean.mount == s.subs[m.id].mount && bean.conn != null
    requires m.Unregister? ==> key == m.key
    modifies registry, registry.data.Values, Connections(registry.data)
    ensures registry.Valid() && Mirrors(registry.data, Apply(s, m), beans)
  {
    match m
    case Register(_) => registry.Set(key, bean);
    case Unregister(_) => var removed := registry.Delete(key);
    case Clear => registry.CloseAll();
  }

  /** A broadcast on the mount reaches the keys of exactly the subscribers registered on it. */
  lemma ReachedAreRegistered(data: Index, s: System, beans: map<nat, Beans.Bean>, mount: string)
    requires Mirrors(data, s, beans)
    ensures RegisteredOn(s, mount) == set k | k in Reached(data, mount) :: s.registry[k]
  {
    forall k | k in s.registry
      ensures k in Reached(data, mount) <==> s.subs[s.registry[k]].mount == mount
    {
    }
  }
}
