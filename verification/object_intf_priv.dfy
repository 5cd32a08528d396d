/** The private data of an interface object (EthernetUNI or ANI instance):
    the system uptime of its last Status change, which LastChange reads are
    computed from. The uptime is a parameter of the model. */
module IntfPriv {
  import opened Wrappers
  import opened Tree

  /** oipriv_attach_private_data(): when instance `index` of `templ`
      exists, attach fresh private data stamped with the current uptime;
      otherwise do nothing. */
  function Attach(tree: Tree, templ: string, index: nat, uptime: nat): (r: Tree)
    ensures r.Keys == tree.Keys
    ensures !InstanceExists(tree, templ, index) ==> r == tree
    ensures InstanceExists(tree, templ, index) ==>
      var k := InstPath(templ, index);
      && r[k] == Node(tree[k].params, Some(Interface(uptime)), tree[k].isTemplate)
      && forall o :: o in tree && o != k ==> r[o] == tree[o]
  {
    if InstanceExists(tree, templ, index) then
      var k := InstPath(templ, index);
      tree[k := tree[k].(priv := Some(Interface(uptime)))]
    else
      tree
  }

  /** The object carries interface private data. */
  predicate HasIntfPriv(tree: Tree, path: string) {
    path in tree && tree[path].priv.Some? && tree[path].priv.value.Interface?
  }

  /** oipriv_update_last_change(): restamp the private data of `path` with
      the current uptime; an object without private data is left alone. */
  function UpdateLastChange(tree: Tree, path: string, uptime: nat): (r: Tree)
    ensures r.Keys == tree.Keys
    ensures !HasIntfPriv(tree, path) ==> r == tree
    ensures HasIntfPriv(tree, path) ==>
      && r[path] == tree[path].(priv := Some(Interface(uptime)))
      && forall o :: o in tree && o != path ==> r[o] == tree[o]
  {
    if HasIntfPriv(tree, path) then
      tree[path := tree[path].(priv := Some(Interface(uptime)))]
    else
      tree
  }

  /** A Status change never moves the stamp backwards while the uptime
      grows, and a second change at the same uptime changes nothing. */
  lemma UpdateLastChangeMonotone(tree: Tree, path: string, u0: nat, u1: nat)
    requires HasIntfPriv(tree, path) && tree[path].priv.value.lastChange <= u0 <= u1
    ensures var t0 := UpdateLastChange(tree, path, u0);
            && HasIntfPriv(t0, path)
            && t0[path].priv.value.lastChange <= UpdateLastChange(t0, path, u1)[path].priv.value.lastChange
            && UpdateLastChange(t0, path, u0) == t0
  {
  }
}
