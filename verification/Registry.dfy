/** The registry of beans with its two indexes: by key, and by mount and key. */
module Registry {
  import opened ChannelBean
  import opened SubscriberQueue
  import Sorting
  import Text

  type Index = map<string, Bean>

  /** The entries of one mount: the plain filter that every query is measured against. */
  function OfMount(data: Index, mount: string): Index {
    map k | k in data && data[k].mount == mount :: data[k]
  }

  function Mounts(data: Index): set<string> {
    set k | k in data :: data[k].mount
  }

  /** The second index as it should be: one non-empty group for each mount. */
  function Grouped(data: Index): map<string, Index> {
    map m | m in Mounts(data) :: OfMount(data, m)
  }

  /** deleteMountIndexLocked, as a function of the second index. */
  function WithoutEntry(groups: map<string, Index>, key: string, mount: string): map<string, Index> {
    if mount !in groups then groups
    else if groups[mount] - {key} == map[] then groups - {mount}
    else groups[mount := groups[mount] - {key}]
  }

  function WithEntry(groups: map<string, Index>, key: string, bean: Bean): map<string, Index> {
    var group: Index := if bean.mount in groups then groups[bean.mount] else map[];
    groups[bean.mount := group[key := bean]]
  }

  lemma MountsExactly(data: Index, mount: string)
    ensures mount in Mounts(data) <==> OfMount(data, mount).Keys != {}
  {
    assert mount in Mounts(data) ==> exists k :: k in data && data[k].mount == mount;
    assert forall k :: k in data && data[k].mount == mount ==> k in OfMount(data, mount).Keys;
  }

  lemma InsertAgrees(data: Index, key: string, bean: Bean)
    requires key !in data
    ensures Grouped(data[key := bean]) == WithEntry(Grouped(data), key, bean)
  {
    var data' := data[key := bean];
    assert OfMount(data', bean.mount) == OfMount(data, bean.mount)[key := bean];
    MountsExactly(data, bean.mount);
    assert OfMount(data, bean.mount).Keys == {} ==> OfMount(data, bean.mount) == map[];
    forall m
      ensures m in Mounts(data') <==> m in Mounts(data) || m == bean.mount
      ensures m != bean.mount ==> OfMount(data', m) == OfMount(data, m)
    {
      MountsExactly(data, m);
      MountsExactly(data', m);
      assert m != bean.mount ==> OfMount(data', m) == OfMount(data, m);
      assert key in OfMount(data', bean.mount);
    }
  }

  /** Storing over an older entry, or none: what Set does once the older one is unindexed. */
  lemma StoreAgrees(data: Index, key: string, bean: Bean)
    ensures Grouped(data[key := bean]) == WithEntry(Grouped(data - {key}), key, bean)
  {
    assert (data - {key})[key := bean] == data[key := bean];
    InsertAgrees(data - {key}, key, bean);
  }

  lemma RemoveAgrees(data: Index, key: string)
    requires key in data
    ensures Grouped(data - {key}) == WithoutEntry(Grouped(data), key, data[key].mount)
  {
    var data', mount := data - {key}, data[key].mount;
    assert OfMount(data', mount) == OfMount(data, mount) - {key};
    assert key in OfMount(data, mount);
    forall m
      ensures m in Mounts(data') <==> OfMount(data', m).Keys != {}
      ensures m in Mounts(data) <==> OfMount(data, m).Keys != {}
      ensures m != mount ==> OfMount(data', m) == OfMount(data, m)
    {
      MountsExactly(data, m);
      MountsExactly(data', m);
    }
    assert OfMount(data', mount).Keys == {} <==> OfMount(data', mount) == map[];
  }

  /** A group is missing exactly when the filter is empty. */
  lemma GroupIsFilter(data: Index, mount: string)
    ensures mount in Grouped(data) <==> OfMount(data, mount).Keys != {}
    ensures mount in Grouped(data) ==> Grouped(data)[mount] == OfMount(data, mount)
    ensures mount !in Grouped(data) ==> OfMount(data, mount) == map[]
  {
    MountsExactly(data, mount);
  }

  /** A queue after n lossy sends of the same payload. */
  function LossySends(b: Box, payload: string, n: nat): Box {
    if n == 0 then b else LossySend(LossySends(b, payload, n - 1), payload)
  }

  /** Under how many of the keys a bean is registered. */
  function Times(keys: set<string>, data: Index, bean: Bean): nat {
    |set k | k in keys && k in data && data[k] == bean|
  }

  lemma TimesWithin(keys: set<string>, data: Index, bean: Bean) returns (hits: set<string>)
    ensures hits <= keys && Times(keys, data, bean) == |hits|
  {
    hits := set k | k in keys && k in data && data[k] == bean;
  }

  lemma TimesOneMore(keys: set<string>, data: Index, key: string, bean: Bean)
    requires key !in keys && key in data
    ensures Times(keys + {key}, data, bean) == Times(keys, data, bean) + if data[key] == bean then 1 else 0
  {
    var before := set k | k in keys && k in data && data[k] == bean;
    var after := set k | k in keys + {key} && k in data && data[k] == bean;
    assert after == before + if data[key] == bean then {key} else {};
  }

  /** The keys whose bean a broadcast on mount reaches. */
  function Reached(data: Index, mount: string): set<string> {
    set k | k in data && data[k].mount == mount && data[k].conn != null
  }

  /** A broadcast half way: done were reached, todo are still to be looked at. */
  predicate HalfWay(data: Index, mount: string, done: set<string>, todo: set<string>) {
    todo <= OfMount(data, mount).Keys && done !! todo && done <= Reached(data, mount) <= done + todo
  }

  lemma HalfWayOneMore(data: Index, mount: string, done: set<string>, todo: set<string>, key: string)
    requires HalfWay(data, mount, done, todo) && key in todo
    ensures key in data && data[key].mount == mount && key !in done
    ensures HalfWay(data, mount, if data[key].conn != null then done + {key} else done, todo - {key})
    ensures |done + {key}| == |done| + 1 && |todo - {key}| == |todo| - 1
  {
  }

  /** When no bean is registered under two keys, "as often as it is registered" means once
      for the connected beans of the mount and never for any other. */
  lemma ReachedOnce(data: Index, mount: string, key: string)
    requires key in data
    requires forall k, l | k in data && l in data && data[k] == data[l] :: k == l
    ensures Times(Reached(data, mount), data, data[key]) ==
            if data[key].mount == mount && data[key].conn != null then 1 else 0
  {
    var hits := set k | k in Reached(data, mount) && k in data && data[k] == data[key];
    assert hits == if data[key].mount == mount && data[key].conn != null then {key} else {};
  }

  class SafeNtripMap {
    var data: Index
    var byMount: map<string, Index>

    ghost predicate Valid()
      reads this
    {
      byMount == Grouped(data)
    }

    constructor ()
      ensures Valid() && data == map[]
    {
      data, byMount := map[], map[];
    }

    method Get(key: string) returns (bean: Bean?)
      ensures bean == if key in data then data[key] else null
    {
      bean := if key in data then data[key] else null;
    }

    method Set(key: string, val: Bean?)
      requires Valid()
      modifies this
      ensures Valid()
      ensures data == if val == null then old(data) - {key} else old(data)[key := val]
    {
      Unindex(key);
      if val == null {
        data := data - {key};
        return;
      }
      StoreAgrees(data, key, val);
      data := data[key := val];
      AddToMount(key, val);
    }

    method AddToMount(key: string, val: Bean)
      modifies `byMount
      ensures byMount == WithEntry(old(byMount), key, val)
    {
      if val.mount !in byMount {
        byMount := byMount[val.mount := map[]];
      }
      byMount := byMount[val.mount := byMount[val.mount][key := val]];
    }

    method SetIfMountAbsent(key: string, val: Bean?) returns (ok: bool)
      requires Valid()
      modifies this
      ensures Valid()
      ensures ok <==> val != null && val.mount !in Mounts(old(data))
      ensures data == if ok then old(data)[key := val] else old(data)
    {
      if val == null {
        return false;
      }
      GroupIsFilter(data, val.mount);
      if val.mount in byMount && |byMount[val.mount]| > 0 {
        return false;
      }
      Unindex(key);
      StoreAgrees(data, key, val);
      data := data[key := val];
      byMount := byMount[val.mount := map[key := val]];
      return true;
    }

    method Delete(key: string) returns (bean: Bean?)
      requires Valid()
      modifies this
      ensures Valid()
      ensures data == old(data) - {key}
      ensures bean == if key in old(data) then old(data)[key] else null
    {
      bean := if key in data then data[key] else null;
      Unindex(key);
      data := data - {key};
    }

    /** Takes the entry of key, if there is one, out of the second index. */
    method Unindex(key: string)
      requires Valid()
      modifies `byMount
      ensures byMount == Grouped(data - {key})
    {
      if key in data {
        RemoveAgrees(data, key);
        DeleteMountIndex(key, data[key].mount);
      } else {
        assert data - {key} == data;
      }
    }

    method DeleteMountIndex(key: string, mount: string)
      modifies `byMount
      ensures byMount == WithoutEntry(old(byMount), key, mount)
    {
      if mount !in byMount {
        return;
      }
      var left := byMount[mount] - {key};
      byMount := byMount[mount := left];
      if |left| == 0 {
        byMount := byMount - {mount};
        assert byMount == old(byMount) - {mount};
      }
    }

    method HasMount(mount: string) returns (has: bool)
      requires Valid()
      ensures has <==> exists k :: k in data && data[k].mount == mount
    {
      GroupIsFilter(data, mount);
      assert forall k :: k in data && data[k].mount == mount <==> k in OfMount(data, mount).Keys;
      has := mount in byMount && |byMount[mount]| > 0;
    }

    /** The beans of a mount, one for each of its keys, in any order. */
    method GetByMount(mount: string) returns (beans: seq<Bean>, ghost keys: seq<string>)
      requires Valid()
      ensures |beans| == |keys|
      ensures forall i, j :: 0 <= i < j < |keys| ==> keys[i] != keys[j]
      ensures forall k :: k in keys <==> k in data && data[k].mount == mount
      ensures forall i :: 0 <= i < |keys| ==> beans[i] == data[keys[i]]
      ensures |beans| == |OfMount(data, mount)|
      ensures forall b :: b in beans <==> b in OfMount(data, mount).Values
    {
      GroupIsFilter(data, mount);
      beans, keys := [], [];
      var group := if mount in byMount then byMount[mount] else map[];
      assert group == OfMount(data, mount);
      var todo := group.Keys;
      while todo != {}
        invariant todo <= group.Keys
        invariant |beans| == |keys|
        invariant forall i, j :: 0 <= i < j < |keys| ==> keys[i] != keys[j]
        invariant forall k :: k in keys <==> k in group && k !in todo
        invariant forall i :: 0 <= i < |keys| ==> keys[i] in group && beans[i] == group[keys[i]]
        invariant |keys| + |todo| == |group.Keys|
        decreases |todo|
      {
        var k :| k in todo;
        todo := todo - {k};
        beans, keys := beans + [group[k]], keys + [k];
      }
    }

    /** The mounts in use, sorted, without duplicates. */
    method GetMountList() returns (mounts: seq<string>)
      requires Valid()
      ensures Sorting.Ascending(mounts)
      ensures forall m :: m in mounts <==> m in Mounts(data)
    {
      var todo, result := byMount.Keys, [];
      while todo != {}
        invariant todo <= byMount.Keys
        invariant forall i, j :: 0 <= i < j < |result| ==> result[i] != result[j]
        invariant forall m :: m in result <==> m in byMount && m !in todo
        decreases |todo|
      {
        var m :| m in todo;
        todo, result := todo - {m}, result + [m];
      }
      Sorting.SortCorrect(result);
      mounts := Sorting.Sort(result);
    }

    method QueryMountList(part: string) returns (mounts: seq<string>)
      requires Valid()
      ensures Sorting.Ascending(mounts)
      ensures forall m :: m in mounts <==> m in Mounts(data) && Text.Contains(m, part)
    {
      var todo, result := byMount.Keys, [];
      while todo != {}
        invariant todo <= byMount.Keys
        invariant forall i, j :: 0 <= i < j < |result| ==> result[i] != result[j]
        invariant forall m :: m in result <==> m in byMount && m !in todo && Text.Contains(m, part)
        decreases |todo|
      {
        var m :| m in todo;
        todo := todo - {m};
        if Text.Contains(m, part) {
          result := result + [m];
        }
      }
      Sorting.SortCorrect(result);
      mounts := Sorting.Sort(result);
    }

    /** Offers the payload to the queue of every connected bean of the mount, once for each
        key it is registered under, and to no other queue. */
    method BroadcastLossByMount(mount: string, payload: string) returns (count: nat)
      requires Valid()
      modifies data.Values
      ensures count == if payload == "" then 0 else |Reached(data, mount)|
      ensures forall b | b in data.Values ::
                b.View() == LossySends(old(b.View()), payload, Times(Reached(data, mount), data, b))
    {
      if payload == "" {
        forall b | b in data.Values {
          EmptyPayload(b.View(), Times(Reached(data, mount), data, b));
        }
        return 0;
      }
      ghost var before := map b | b in data.Values :: b.View();
      count := OfferAll(before, mount, payload);
    }

    method OfferAll(ghost before: map<Bean, Box>, mount: string, payload: string) returns (count: nat)
      requires Valid()
      requires forall b | b in data.Values :: b in before && b.View() == before[b]
      modifies data.Values
      ensures count == |Reached(data, mount)| && Offered(before, Reached(data, mount), payload)
    {
      GroupIsFilter(data, mount);
      var todo := if mount in byMount then byMount[mount].Keys else {};
      ghost var done: set<string> := {};
      count := 0;
      NothingOffered(before, payload);
      while todo != {}
        invariant HalfWay(data, mount, done, todo)
        invariant count == |done|
        invariant Offered(before, done, payload)
        decreases |todo|
      {
        var k :| k in todo;
        HalfWayOneMore(data, mount, done, todo, k);
        todo := todo - {k};
        if data[k].conn != null {
          OfferOne(before, done, k, payload);
          done, count := done + {k}, count + 1;
        }
      }
      assert done == Reached(data, mount);
    }

    lemma NothingOffered(before: map<Bean, Box>, payload: string)
      requires forall b | b in data.Values :: b in before && b.View() == before[b]
      ensures Offered(before, {}, payload)
    {
      forall b: Bean | b in data.Values
        ensures Times({}, data, b) == 0
      {
        var hits := TimesWithin({}, data, b);
      }
    }

    /** Every queue is what the keys done so far make of it. */
    ghost predicate Offered(before: map<Bean, Box>, done: set<string>, payload: string)
      reads this, data.Values
    {
      forall b | b in data.Values ::
        && b in before
        && b.View() == LossySends(before[b], payload, Times(done, data, b))
    }

    method OfferOne(ghost before: map<Bean, Box>, ghost done: set<string>, key: string, payload: string)
      requires key in data && key !in done && Offered(before, done, payload)
      modifies data.Values
      ensures Offered(before, done + {key}, payload)
    {
      forall b | b in data.Values {
        TimesOneMore(done, data, key, b);
      }
      data[key].SendLossOwned(payload);
    }

    lemma EmptyPayload(b: Box, n: nat)
      ensures LossySends(b, "", n) == b
    {
    }

    method CloseAll()
      requires Valid()
      modifies this, data.Values, Connections(data)
      ensures Valid() && data == map[]
      ensures forall b | b in old(data.Values) :: b.closed
      ensures forall b | b in old(data.Values) && !old(b.closed) && b.conn != null :: !b.conn.open
    {
      var beans := data.Values;
      assert forall b | b in beans && b.conn != null :: b.conn in Connections(data);
      CloseEach(beans, Connections(data));
      data, byMount := map[], map[];
    }

    static method CloseEach(beans: set<Bean>, ghost conns: set<Connection>)
      requires forall b | b in beans && b.conn != null :: b.conn in conns
      modifies beans, conns
      ensures forall b | b in beans :: b.closed
      ensures forall b | b in beans && !old(b.closed) && b.conn != null :: !b.conn.open
    {
      var todo := beans;
      while todo != {}
        invariant todo <= beans
        invariant forall b | b in todo && !old(b.closed) :: !b.closed
        invariant forall b | b in beans && b !in todo :: b.closed
        invariant forall b | b in beans && b !in todo && !old(b.closed) && b.conn != null :: !b.conn.open
        decreases |todo|
      {
        var b :| b in todo;
        todo := todo - {b};
        b.Close();
      }
    }
  }

  function Connections(data: Index): set<Connection> {
    set k | k in data && data[k].conn != null :: data[k].conn
  }

  // ---------- one source for each mount ----------

  /** What the source side does to its registry: never Set, so a mount is only ever claimed
      by SetIfMountAbsent. */
  datatype SourceOp = Claim(key: string, bean: Bean) | Remove(key: string) | Clear

  function Effect(data: Index, op: SourceOp): Index {
    match op
    case Claim(key, bean) => if bean.mount in Mounts(data) then data else data[key := bean]
    case Remove(key) => data - {key}
    case Clear => map[]
  }

  function Effects(ops: seq<SourceOp>): Index {
    if ops == [] then map[] else Effect(Effects(ops[..|ops| - 1]), ops[|ops| - 1])
  }

  /** After any sequence of them no mount has two entries, whatever keys are reused. */
  lemma {:induction false} OneSourcePerMount(ops: seq<SourceOp>, k: string, l: string)
    requires k in Effects(ops) && l in Effects(ops) && Effects(ops)[k].mount == Effects(ops)[l].mount
    ensures k == l
  {
    if ops != [] {
      var before, op := Effects(ops[..|ops| - 1]), ops[|ops| - 1];
      if k in before && l in before && before[k].mount == before[l].mount {
        OneSourcePerMount(ops[..|ops| - 1], k, l);
      }
    }
  }

  /** The methods do to `data` just what Effect says. */
  method Perform(registry: SafeNtripMap, op: SourceOp)
    requires registry.Valid()
    modifies registry, registry.data.Values, Connections(registry.data)
    ensures registry.Valid() && registry.data == Effect(old(registry.data), op)
  {
    match op
    case Claim(key, bean) => var ok := registry.SetIfMountAbsent(key, bean);
    case Remove(key) => var bean := registry.Delete(key);
    case Clear => registry.CloseAll();
  }
}
