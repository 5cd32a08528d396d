/** The host's object tree, as far as the plugin observes it: a map from
    concrete object path to the object's parameters, its private data and
    whether it is a template (multi-instance) object. */
module Tree {
  import opened Wrappers
  import opened Strs
  import opened DmInfo

  /** A parameter value with its amxc variant type. */
  datatype Value =
    | VBool(b: bool)
    | VStr(s: string)
    | VU32(u: nat)
    | VI32(i: int)
    | VCsv(csv: string)

  function TypeOf(v: Value): ParamType {
    match v
    case VBool(_) => Bool
    case VStr(_) => CString
    case VU32(_) => UInt32
    case VI32(_) => Int32
    case VCsv(_) => CsvString
  }

  /** Private data the plugin attaches to an object: the marker that an ONU's
      persisted Enable has been handled, or the LastChange bookkeeping of an
      interface object (EthernetUNI, ANI). */
  datatype Priv = OnuMarker | Interface(lastChange: nat)

  datatype Node = Node(params: map<string, Value>, priv: Option<Priv>, isTemplate: bool)

  type Tree = map<string, Node>

  /** Path of instance `index` of template `templ`: templ + "." + index. */
  function InstPath(templ: string, index: nat): string {
    templ + "." + NatToString(index)
  }

  lemma InstPathInjective(templ: string, i: nat, j: nat)
    requires InstPath(templ, i) == InstPath(templ, j)
    ensures i == j
  {
    assert NatToString(i) == InstPath(templ, i)[|templ| + 1..];
    assert NatToString(j) == InstPath(templ, j)[|templ| + 1..];
    NatToStringInjective(i, j);
  }

  /** `k` is `root` or lies below it. */
  predicate InSubtree(root: string, k: string) {
    k == root || StartsWith(k, root + ".")
  }

  /** `k` is the path of an instance of `templ` (canonical decimal index). */
  predicate IsInstanceKey(templ: string, k: string) {
    && StartsWith(k, templ + ".")
    && IsNumeric(k[|templ| + 1..])
    && NatToString(ParseNat(k[|templ| + 1..])) == k[|templ| + 1..]
  }

  lemma InstPathIsInstanceKey(templ: string, index: nat)
    ensures IsInstanceKey(templ, InstPath(templ, index))
  {
    var k := InstPath(templ, index);
    assert k[|templ| + 1..] == NatToString(index);
    ParseNatToString(index);
  }

  lemma InstanceKeyIsInstPath(templ: string, k: string)
    requires IsInstanceKey(templ, k)
    ensures k == InstPath(templ, ParseNat(k[|templ| + 1..]))
  {
    assert k == k[..|templ| + 1] + k[|templ| + 1..];
  }

  /** Paths of the existing instances of `templ`. */
  function InstanceKeys(tree: Tree, templ: string): (r: set<string>)
    ensures forall k :: k in r <==> k in tree && IsInstanceKey(templ, k)
  {
    set k | k in tree && IsInstanceKey(templ, k)
  }

  /** amxd_object_get_instance_count() after a lookup of `templ`: 0 when the
      object does not exist or is not a template. */
  function InstanceCount(tree: Tree, templ: string): (r: nat)
    ensures r > 0 ==> templ in tree && tree[templ].isTemplate
    ensures templ in tree && tree[templ].isTemplate ==> (r == 0 <==> InstanceKeys(tree, templ) == {})
  {
    if templ in tree && tree[templ].isTemplate then |InstanceKeys(tree, templ)| else 0
  }

  /** dm_does_instance_exist(): the template exists and has instance `index`. */
  function InstanceExists(tree: Tree, templ: string, index: nat): (r: bool)
    ensures r <==> templ in tree && tree[templ].isTemplate && InstPath(templ, index) in InstanceKeys(tree, templ)
  {
    InstPathIsInstanceKey(templ, index);
    templ in tree && tree[templ].isTemplate && InstPath(templ, index) in tree
  }

  /** The tree without `root` and everything below it. */
  function RemoveSubtree(tree: Tree, root: string): (r: Tree)
    ensures forall k :: k in r <==> k in tree && !InSubtree(root, k)
    ensures forall k :: k in r ==> r[k] == tree[k]
  {
    map k | k in tree && !InSubtree(root, k) :: tree[k]
  }

  lemma RemoveSubtreeIdempotent(tree: Tree, root: string)
    ensures RemoveSubtree(RemoveSubtree(tree, root), root) == RemoveSubtree(tree, root)
  {
  }

  /** The value a freshly created parameter of type `t` holds. */
  function DefaultValue(t: ParamType): (r: Value)
    ensures TypeOf(r) == t
  {
    match t
    case Bool => VBool(false)
    case CString => VStr("")
    case UInt32 => VU32(0)
    case Int32 => VI32(0)
    case CsvString => VCsv("")
  }

  /** Every catalog parameter at its default value. */
  function DefaultParams(params: seq<ParamInfo>): (r: map<string, Value>)
    ensures forall n :: n in r <==> exists i :: 0 <= i < |params| && params[i].name == n
    ensures forall n :: n in r ==> LookupParam(params, n) == Some(TypeOf(r[n]))
  {
    if |params| == 0 then map[]
    else
      var rest := DefaultParams(params[1..]);
      assert forall i :: 1 <= i < |params| ==> params[i] == params[1..][i - 1];
      assert forall n :: n in rest ==> exists i :: 0 <= i < |params| && params[i].name == n by {
        forall n | n in rest ensures exists i :: 0 <= i < |params| && params[i].name == n {
          var j :| 0 <= j < |params[1..]| && params[1..][j].name == n;
          assert params[j + 1].name == n;
        }
      }
      rest[params[0].name := DefaultValue(params[0].ptype)]
  }

  /** The objects below a new instance at `instPath`: each catalog sub-object,
      templates without instances and singletons with default parameters. */
  function SubObjectNodes(instPath: string, subs: seq<SubObject>): (r: Tree)
    requires forall i :: 0 <= i < |subs| ==> subs[i].id < NBR
    ensures forall k :: k in r <==> exists i :: 0 <= i < |subs| && k == instPath + "." + subs[i].rel
  {
    if |subs| == 0 then map[]
    else
      var s := subs[|subs| - 1];
      var node := Node(if s.isTemplate then map[] else DefaultParams(OBJECT_INFO[s.id].params), None, s.isTemplate);
      var rest := SubObjectNodes(instPath, subs[..|subs| - 1]);
      assert forall i :: 0 <= i < |subs| - 1 ==> subs[i] == subs[..|subs| - 1][i];
      rest[instPath + "." + s.rel := node]
  }

  lemma SubObjectsValid(id: nat)
    ensures forall i :: 0 <= i < |SubObjects(id)| ==> SubObjects(id)[i].id < NBR
  {
  }

  /** Key values of the existing instances of `templ` under key `keyName`
      must stay unique: true when `v` would clash with one of them. */
  predicate KeyClash(tree: Tree, templ: string, keyName: string, v: Value) {
    exists k :: k in InstanceKeys(tree, templ) && keyName in tree[k].params && tree[k].params[keyName] == v
  }

  /** The host's transaction engine. Apply fails when the target path is
      one whose validators reject the change (`rejects`), or, for a new
      instance, when its key value clashes with a sibling's. */
  datatype Host = Host(rejects: set<string>)
}
