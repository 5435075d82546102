/** The transport router (`transport/router.ts`): transports by location name, in insertion order. */
module Router {
  import opened Common

  /** `serial` tells two transports for one location apart; `topics` are the topic ids the transport claims. */
  datatype Transport = Transport(source: string, serial: nat, enabled: bool, topics: set<string>)

  datatype RouterError = DuplicateName | NotConfigured | Disabled | TopicNotFound

  function Names(transports: seq<Transport>): set<string> {
    set t | t in transports :: t.source
  }

  function Lookup(transports: seq<Transport>, name: string): Option<Transport> {
    if transports == [] then None
    else if transports[|transports| - 1].source == name then Some(transports[|transports| - 1])
    else Lookup(transports[..|transports| - 1], name)
  }

  /** Setting a map entry: an existing name keeps its place. */
  function Set(transports: seq<Transport>, t: Transport): seq<Transport> {
    if transports == [] then [t]
    else
      var last := |transports| - 1;
      if transports[last].source == t.source then transports[..last] + [t]
      else if t.source !in Names(transports[..last]) then transports + [t]
      else Set(transports[..last], t) + [transports[last]]
  }

  function Deleted(transports: seq<Transport>, name: string): seq<Transport> {
    if transports == [] then []
    else
      var rest := Deleted(transports[..|transports| - 1], name);
      if transports[|transports| - 1].source == name then rest else rest + [transports[|transports| - 1]]
  }

  predicate UniqueNames(transports: seq<Transport>) {
    forall i, j | 0 <= i < j < |transports| :: transports[i].source != transports[j].source
  }

  predicate IsFirstOwner(transports: seq<Transport>, topicId: string, i: int) {
    && 0 <= i < |transports| && transports[i].enabled && topicId in transports[i].topics
    && forall j | 0 <= j < i :: !(transports[j].enabled && topicId in transports[j].topics)
  }

  lemma {:induction false} LookupFinds(transports: seq<Transport>, name: string)
    ensures Lookup(transports, name).Some? <==> name in Names(transports)
    ensures Lookup(transports, name).Some? ==>
              Lookup(transports, name).value in transports && Lookup(transports, name).value.source == name
  {
    if transports == [] {
    } else {
      var last := |transports| - 1;
      LookupFinds(transports[..last], name);
      assert transports == transports[..last] + [transports[last]];
    }
  }

  class TransportRouter {
    var transports: seq<Transport>

    constructor ()
      ensures transports == []
    {
      transports := [];
    }

    /** Refuses to overwrite unless asked to, and then hands back what it replaced. */
    method Register(t: Transport, replace: bool) returns (prior: Result<Option<Transport>, RouterError>)
      modifies this
      ensures prior == if old(Has(t.source))
                && !replace then Err(DuplicateName) else Ok(old(Lookup(transports, t.source)))
      ensures transports == if prior.Err? then old(transports) else Set(old(transports), t)
      ensures prior == Err(DuplicateName) <==> !replace && exists x | x in old(transports) :: x.source == t.source
    {
      var found := Lookup(transports, t.source);
      LookupFinds(transports, t.source);
      if found.Some? && !replace {
        return Err(DuplicateName);
      }
      transports := Set(transports, t);
      return Ok(found);
    }

    method Unregister(name: string) returns (prior: Option<Transport>)
      modifies this
      ensures transports == Deleted(old(transports), name) && prior == Lookup(old(transports), name)
    {
      prior := Lookup(transports, name);
      transports := Deleted(transports, name);
    }

    predicate Has(name: string)
      reads this
    {
      name in Names(transports)
    }

    /** Configured and enabled, or the reason why not. */
    method Get(location: string) returns (r: Result<Transport, RouterError>)
      ensures r.Ok? ==> r.value in transports && r.value.source == location && r.value.enabled
      ensures r == Err(NotConfigured) <==> location !in Names(transports)
      ensures r.Err? && r.error == Disabled ==> exists t | t in transports :: t.source == location && !t.enabled
      ensures r.Err? ==> r.error == NotConfigured || r.error == Disabled
    {
      LookupFinds(transports, location);
      var found := Lookup(transports, location);
      if found.None? {
        return Err(NotConfigured);
      }
      return if found.value.enabled then Ok(found.value) else Err(Disabled);
    }

    /** The first enabled transport, in insertion order, that claims the topic. */
    method GetByTopicId(topicId: string) returns (r: Result<Transport, RouterError>)
      ensures r.Err? <==> forall t | t in transports :: !(t.enabled && topicId in t.topics)
      ensures r.Err? ==> r.error == TopicNotFound
      ensures r.Ok? ==> exists i :: IsFirstOwner(transports, topicId, i) && transports[i] == r.value
    {
      for i := 0 to |transports|
        invariant forall j | 0 <= j < i :: !(transports[j].enabled && topicId in transports[j].topics)
      {
        if transports[i].enabled && topicId in transports[i].topics {
          assert IsFirstOwner(transports, topicId, i);
          return Ok(transports[i]);
        }
      }
      return Err(TopicNotFound);
    }
  }

  lemma NamesLast(transports: seq<Transport>, t: Transport)
    ensures Names(transports + [t]) == Names(transports) + {t.source}
  {
  }

  lemma UniquePrefix(transports: seq<Transport>)
    requires transports != [] && UniqueNames(transports)
    ensures var last := |transports| - 1;
            && UniqueNames(transports[..last]) && transports[last].source !in Names(transports[..last])
            && Names(transports) == Names(transports[..last]) + {transports[last].source}
  {
  }

  lemma UniqueLast(transports: seq<Transport>, t: Transport)
    requires UniqueNames(transports) && t.source !in Names(transports)
    ensures UniqueNames(transports + [t])
  {
  }

  lemma {:induction false} SetKeepsUnique(transports: seq<Transport>, t: Transport)
    requires UniqueNames(transports)
    ensures UniqueNames(Set(transports, t)) && Names(Set(transports, t)) == Names(transports) + {t.source}
  {
    NamesLast([], t);
    if transports != [] {
      var last := |transports| - 1;
      var before, x := transports[..last], transports[last];
      UniquePrefix(transports);
      if x.source == t.source {
        UniqueLast(before, t);
        NamesLast(before, t);
      } else if t.source !in Names(before) {
        UniqueLast(transports, t);
        NamesLast(transports, t);
      } else {
        SetKeepsUnique(before, t);
        UniqueLast(Set(before, t), x);
        NamesLast(Set(before, t), x);
      }
    }
  }

  lemma LookupLast(transports: seq<Transport>, t: Transport, name: string)
    ensures Lookup(transports + [t], name) == if t.source == name then Some(t) else Lookup(transports, name)
  {
  }

  /** Registering makes the name answer with the new transport and changes no other name. */
  lemma {:induction false} SetIsUpdate(transports: seq<Transport>, t: Transport, name: string)
    requires UniqueNames(transports)
    ensures Lookup(Set(transports, t), name) == if name == t.source then Some(t) else Lookup(transports, name)
  {
    if transports == [] {
    } else {
      var last := |transports| - 1;
      var before, x := transports[..last], transports[last];
      UniquePrefix(transports);
      LookupLast(before, t, name);
      LookupLast(transports, t, name);
      SetIsUpdate(before, t, name);
      LookupLast(Set(before, t), x, name);
    }
  }

  lemma SetNew(transports: seq<Transport>, t: Transport)
    requires t.source !in Names(transports)
    ensures Set(transports, t) == transports + [t]
  {
  }

  lemma {:induction false} DeletedIsGone(transports: seq<Transport>, name: string)
    ensures name !in Names(Deleted(transports, name))
  {
    if transports == [] {
    } else {
      var last := |transports| - 1;
      DeletedIsGone(transports[..last], name);
      NamesLast(Deleted(transports[..last], name), transports[last]);
    }
  }

  lemma {:induction false} DeletedKeepsUnique(transports: seq<Transport>, removed: string)
    requires UniqueNames(transports)
    ensures UniqueNames(Deleted(transports, removed))
              && Names(Deleted(transports, removed)) == Names(transports) - {removed}
  {
    if transports == [] {
    } else {
      var last := |transports| - 1;
      var before, x := transports[..last], transports[last];
      UniquePrefix(transports);
      DeletedKeepsUnique(before, removed);
      if x.source != removed {
        UniqueLast(Deleted(before, removed), x);
        NamesLast(Deleted(before, removed), x);
      }
    }
  }

  /** Unregistering removes exactly the name. */
  lemma {:induction false} DeletedIsRemoval(transports: seq<Transport>, removed: string, name: string)
    ensures Lookup(Deleted(transports, removed), name) == if name == removed then None else Lookup(transports, name)
  {
    if transports == [] {
    } else {
      var last := |transports| - 1;
      DeletedIsRemoval(transports[..last], removed, name);
      LookupLast(Deleted(transports[..last], removed), transports[last], name);
    }
  }

  // ---------------------------------------------------------------- whole histories

  datatype RouterOp = Register(t: Transport, replace: bool) | Unregister(name: string)

  /** What a router built empty holds after the operations; one that is refused changes nothing. */
  function Operated(ops: seq<RouterOp>): seq<Transport> {
    if ops == [] then []
    else
      var before := Operated(ops[..|ops| - 1]);
      match ops[|ops| - 1]
      case Register(t, replace) => if t.source in Names(before) && !replace then before else Set(before, t)
      case Unregister(name) => Deleted(before, name)
  }

  /** The same as a map from names to transports. */
  function TransportsByName(ops: seq<RouterOp>): map<string, Transport> {
    if ops == [] then map[]
    else
      var before := TransportsByName(ops[..|ops| - 1]);
      match ops[|ops| - 1]
      case Register(t, replace) => if t.source in before && !replace then before else before[t.source := t]
      case Unregister(name) => before - {name}
  }

  /** After every sequence of registrations and removals names are unique, and the router answers as the map does. */
  lemma {:induction false} RouterIsMap(ops: seq<RouterOp>, name: string)
    ensures UniqueNames(Operated(ops)) && Names(Operated(ops)) == TransportsByName(ops).Keys
    ensures Lookup(Operated(ops), name)
         == if name in TransportsByName(ops) then Some(TransportsByName(ops)[name]) else None
  {
    if ops == [] {
    } else {
      var before := Operated(ops[..|ops| - 1]);
      RouterIsMap(ops[..|ops| - 1], name);
      match ops[|ops| - 1]
      case Register(t, _) =>
        SetKeepsUnique(before, t);
        SetIsUpdate(before, t, name);
      case Unregister(gone) =>
        DeletedKeepsUnique(before, gone);
        DeletedIsRemoval(before, gone, name);
    }
  }

  /** The names in insertion order. */
  function Order(transports: seq<Transport>): seq<string> {
    seq(|transports|, i requires 0 <= i < |transports| => transports[i].source)
  }

  function OrderWithout(order: seq<string>, name: string): seq<string> {
    if order == [] then []
    else
      var front, last := OrderWithout(order[..|order| - 1], name), order[|order| - 1];
      if last == name then front else front + [last]
  }

  lemma OrderHoldsNames(transports: seq<Transport>, name: string)
    ensures name in Order(transports) <==> name in Names(transports)
  {
    if name in Names(transports) {
      var t :| t in transports && t.source == name;
      var i :| 0 <= i < |transports| && transports[i] == t;
      assert Order(transports)[i] == name;
    }
    if name in Order(transports) {
      var i :| 0 <= i < |transports| && Order(transports)[i] == name;
      assert transports[i] in transports;
    }
  }

  lemma {:induction false} SetKeepsPlaces(transports: seq<Transport>, t: Transport)
    requires UniqueNames(transports)
    ensures Order(Set(transports, t))
         == if t.source in Order(transports) then Order(transports) else Order(transports) + [t.source]
  {
    if transports == [] {
    } else {
      var before, x := transports[..|transports| - 1], transports[|transports| - 1];
      UniquePrefix(transports);
      SetKeepsPlaces(before, t);
      assert Order(transports) == Order(before) + [x.source];
      OrderHoldsNames(before, t.source);
    }
  }

  lemma {:induction false} DeletedKeepsOrder(transports: seq<Transport>, name: string)
    ensures Order(Deleted(transports, name)) == OrderWithout(Order(transports), name)
  {
    if transports == [] {
    } else {
      var before, x := transports[..|transports| - 1], transports[|transports| - 1];
      DeletedKeepsOrder(before, name);
      assert Order(transports)[..|transports| - 1] == Order(before);
    }
  }

  /** The names in the order in which they came in; replacing keeps a name's place, and coming in again after a removal
      does not. */
  function OrderByName(ops: seq<RouterOp>): seq<string> {
    if ops == [] then []
    else
      var before := OrderByName(ops[..|ops| - 1]);
      match ops[|ops| - 1]
      case Register(t, _) => if t.source in before then before else before + [t.source]
      case Unregister(name) => OrderWithout(before, name)
  }

  /** After every sequence of operations the router visits its transports in that order. */
  lemma {:induction false} RouterKeepsOrder(ops: seq<RouterOp>)
    ensures Order(Operated(ops)) == OrderByName(ops)
  {
    if ops == [] {
    } else {
      var front := ops[..|ops| - 1];
      var before := Operated(front);
      RouterKeepsOrder(front);
      RouterIsMap(front, "");
      match ops[|ops| - 1]
      case Register(t, _) =>
        SetKeepsPlaces(before, t);
        OrderHoldsNames(before, t.source);
      case Unregister(gone) =>
        DeletedKeepsOrder(before, gone);
    }
  }
}
