/** Proxy groups and the two selector-patch policies, as functions of the
    registry and the decoded patch. */
module Groups {
  import opened Common

  /** An entry of the engine's proxy registry. `Selector` stands for an
      `adapter.Proxy` whose adapter is an `outboundgroup.Selector`; every
      other kind of entry is `Other`, which the façades never change. */
  datatype Group = Selector(members: set<string>, current: string) | Other

  /** `Selector.Set`, a call into the engine. Assumed behaviour: it succeeds
      iff the member belongs to the group, and then selects that member. */
  function SelectorSet(g: Group, member: string): (r: Option<Group>)
    requires g.Selector?
    ensures r.Some? <==> member in g.members
    ensures r.Some? ==> r.value == Selector(g.members, member)
  {
    if member in g.members then Some(g.(current := member)) else None
  }

  /** The group `name` is named by the patch, is a selector, and its `Set`
      with the requested member succeeds. */
  predicate Settable(groups: map<string, Group>, patch: map<string, string>, name: string)
  {
    name in groups && name in patch && groups[name].Selector? && patch[name] in groups[name].members
  }

  /** The registry after one selector-backed group has been set. */
  function Select(groups: map<string, Group>, patch: map<string, string>, name: string): map<string, Group>
    requires Settable(groups, patch, name)
  {
    groups[name := Selector(groups[name].members, patch[name])]
  }

  /** Apply-all policy: every named selector gets `Set(selected)`; a failing
      `Set` is ignored. */
  function ApplyAll(groups: map<string, Group>, patch: map<string, string>): (r: map<string, Group>)
    ensures r.Keys == groups.Keys
    ensures forall n :: n in groups && n !in patch ==> r[n] == groups[n]
    ensures forall n :: n in groups && !groups[n].Selector? ==> r[n] == groups[n]
    ensures forall n :: n in groups && n in patch && groups[n].Selector? ==>
      r[n] == if patch[n] in groups[n].members then Selector(groups[n].members, patch[n]) else groups[n]
  {
    map n | n in groups ::
      if n in patch && groups[n].Selector? then
        match SelectorSet(groups[n], patch[n])
        case Some(g) => g
        case None => groups[n]
      else groups[n]
  }

  /** Patching twice with the same patch changes nothing more. */
  lemma ApplyAllIdempotent(groups: map<string, Group>, patch: map<string, string>)
    ensures ApplyAll(ApplyAll(groups, patch), patch) == ApplyAll(groups, patch)
  {
  }

  /** First-success policy, visiting the groups in `order`: the first named
      selector whose `Set` succeeds is changed and the walk stops. */
  function FirstSuccess(groups: map<string, Group>, patch: map<string, string>, order: seq<string>)
    : (r: (bool, map<string, Group>))
    ensures r.1.Keys == groups.Keys
    ensures !r.0 ==> r.1 == groups
  {
    if order == [] then (false, groups)
    else
      var name := order[0];
      if name !in patch || name !in groups || !groups[name].Selector? then
        FirstSuccess(groups, patch, order[1..])
      else
        match SelectorSet(groups[name], patch[name])
        case Some(g) => (true, groups[name := g])
        case None => FirstSuccess(groups, patch, order[1..])
  }

  /** Position `i` holds the first settable group of `order`. */
  ghost predicate FirstSettableAt(groups: map<string, Group>, patch: map<string, string>, order: seq<string>, i: int)
  {
    0 <= i < |order| && Settable(groups, patch, order[i]) &&
    forall j :: 0 <= j < i ==> !Settable(groups, patch, order[j])
  }

  /** First-success reports true iff some group of `order` is settable; it
      then changes exactly the first such group, and otherwise nothing. */
  lemma {:induction false} FirstSuccessPicksFirst(groups: map<string, Group>, patch: map<string, string>, order: seq<string>)
    ensures FirstSuccess(groups, patch, order).0 <==> exists i :: 0 <= i < |order| && Settable(groups, patch, order[i])
    ensures !FirstSuccess(groups, patch, order).0 ==> FirstSuccess(groups, patch, order).1 == groups
    ensures FirstSuccess(groups, patch, order).0 ==>
      exists i :: FirstSettableAt(groups, patch, order, i) &&
        FirstSuccess(groups, patch, order).1 == Select(groups, patch, order[i])
  {
    if order != [] {
      var rest := order[1..];
      if Settable(groups, patch, order[0]) {
        assert FirstSettableAt(groups, patch, order, 0);
      } else {
        FirstSuccessPicksFirst(groups, patch, rest);
        assert FirstSuccess(groups, patch, order) == FirstSuccess(groups, patch, rest);
        if exists i :: 0 <= i < |order| && Settable(groups, patch, order[i]) {
          var i :| 0 <= i < |order| && Settable(groups, patch, order[i]);
          assert Settable(groups, patch, rest[i - 1]);
        }
        if FirstSuccess(groups, patch, rest).0 {
          var i :| FirstSettableAt(groups, patch, rest, i) &&
            FirstSuccess(groups, patch, rest).1 == Select(groups, patch, rest[i]);
          assert FirstSettableAt(groups, patch, order, i + 1) by {
            forall j | 0 <= j < i + 1
              ensures !Settable(groups, patch, order[j])
            {
              if j > 0 { assert order[j] == rest[j - 1]; }
            }
          }
        }
      }
    }
  }

  /** When the order visits every group, the boolean does not depend on the
      order: it is true iff some group of the registry is settable. */
  lemma FirstSuccessOutcome(groups: map<string, Group>, patch: map<string, string>, order: seq<string>)
    requires IsEnumeration(order, groups.Keys)
    ensures FirstSuccess(groups, patch, order).0 <==> exists n :: Settable(groups, patch, n)
  {
    FirstSuccessPicksFirst(groups, patch, order);
    if exists n :: Settable(groups, patch, n) {
      var n :| Settable(groups, patch, n);
      assert n in order;
      var i :| 0 <= i < |order| && order[i] == n;
      assert Settable(groups, patch, order[i]);
    }
  }

  /** At most one group changes, and a changed group takes exactly the value
      the apply-all policy would give it. */
  lemma FirstSuccessChangesAtMostOne(groups: map<string, Group>, patch: map<string, string>, order: seq<string>)
    ensures FirstSuccess(groups, patch, order).1.Keys == groups.Keys
    ensures forall n, m ::
      (n in groups && m in groups &&
       FirstSuccess(groups, patch, order).1[n] != groups[n] &&
       FirstSuccess(groups, patch, order).1[m] != groups[m]) ==> n == m
    ensures forall n :: n in groups ==>
      FirstSuccess(groups, patch, order).1[n] in {groups[n], ApplyAll(groups, patch)[n]}
  {
    FirstSuccessPicksFirst(groups, patch, order);
  }
}
