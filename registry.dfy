/**
 * The method registry: a table of (name, handler) entries sorted by name, the
 * `strcmp` order it is sorted by, and the binary search (`bsearch` with
 * `compare_methods`) that resolves a method name.
 */
module Registry {
  import opened JsonValue
  import opened RpcError

  /** What a handler gives back: its result value, or the error record it raised. */
  datatype HandlerResult = Done(result: Json) | Raised(failure: Failure)

  /** An `obelisk_rpc_t`: a method name and the handler behind it. */
  datatype MethodEntry = MethodEntry(name: string, cb: Json -> HandlerResult)

  /** `sizeof(obelisk_rpc_t)`: two pointers on an LP64 target. */
  const EntrySize: nat := 16

  /**
   * An `obelisk_baton_t`: the verbosity setting, the registry table and the table's
   * size in bytes. Only the first `rpcSize / EntrySize` entries are searched.
   */
  datatype Baton = Baton(verbose: nat, rpc: seq<MethodEntry>, rpcSize: nat) {

    function EntryCount(): nat {
      rpcSize / EntrySize
    }

    /** The size covers only real entries, and those entries are sorted with unique names. */
    predicate Valid() {
      EntryCount() <= |rpc| && Sorted(rpc[..EntryCount()])
    }

    /** The entries the lookup searches. */
    function Table(): (t: seq<MethodEntry>)
      requires EntryCount() <= |rpc|
      ensures |t| == EntryCount()
      ensures forall i :: 0 <= i < |t| ==> t[i] == rpc[i]
    {
      rpc[..EntryCount()]
    }
  }

  /** `strcmp`: the sign of the first difference, a proper prefix ordering first. */
  function StrCmp(a: string, b: string): (r: int)
    ensures -1 <= r <= 1
    ensures r == 0 <==> a == b
  {
    if |a| == 0 && |b| == 0 then 0
    else if |a| == 0 then -1
    else if |b| == 0 then 1
    else if a[0] < b[0] then -1
    else if a[0] > b[0] then 1
    else
      assert a == [a[0]] + a[1..] && b == [b[0]] + b[1..];
      StrCmp(a[1..], b[1..])
  }

  lemma {:induction false} StrCmpAntisymmetric(a: string, b: string)
    ensures StrCmp(a, b) == -StrCmp(b, a)
  {
    if |a| > 0 && |b| > 0 && a[0] == b[0] {
      StrCmpAntisymmetric(a[1..], b[1..]);
    }
  }

  lemma {:induction false} StrCmpTransitive(a: string, b: string, c: string)
    requires StrCmp(a, b) < 0 && StrCmp(b, c) < 0
    ensures StrCmp(a, c) < 0
  {
    if |a| > 0 && |b| > 0 && |c| > 0 && a[0] == b[0] && b[0] == c[0] {
      StrCmpTransitive(a[1..], b[1..], c[1..]);
    }
  }

  /** Names strictly ascending in `strcmp` order, hence unique. */
  predicate Sorted(t: seq<MethodEntry>) {
    forall i, j :: 0 <= i < j < |t| ==> StrCmp(t[i].name, t[j].name) < 0
  }

  /** `compare_methods`: compares the requested name with an entry's name. */
  function CompareMethods(key: string, entry: MethodEntry): (r: int)
    ensures r == 0 <==> key == entry.name
    ensures r == -StrCmp(entry.name, key)
  {
    StrCmpAntisymmetric(key, entry.name);
    StrCmp(key, entry.name)
  }

  /** Reference definition of resolution: the first entry that bears the name, by linear scan. */
  function Find(t: seq<MethodEntry>, name: string): (r: Option<nat>)
    ensures r.Some? ==> r.value < |t| && t[r.value].name == name
    ensures r.Some? ==> forall j :: 0 <= j < r.value ==> t[j].name != name
    ensures r.None? <==> forall j :: 0 <= j < |t| ==> t[j].name != name
  {
    if |t| == 0 then None
    else if t[0].name == name then Some(0)
    else
      match Find(t[1..], name)
      case None => None
      case Some(k) => Some(k + 1)
  }

  /** In a sorted table the entry bearing a name is the only one, and it is what `Find` gives. */
  lemma FindInSorted(t: seq<MethodEntry>, name: string, k: nat)
    requires Sorted(t)
    requires k < |t| && t[k].name == name
    ensures Find(t, name) == Some(k)
  {
  }

  /**
   * The registry lookup, as `bsearch` runs it over the searched entries: halve the
   * interval `[l, u)` by the sign of `compare_methods` until a match or nothing is left.
   * Against a sorted table it agrees with the linear scan: it finds an entry exactly
   * when some entry bears the requested name.
   */
  method Lookup(key: string, baton: Baton) returns (r: Option<nat>)
    requires baton.Valid()
    ensures r == Find(baton.Table(), key)
    ensures r.Some? <==> exists i :: 0 <= i < baton.EntryCount() && baton.rpc[i].name == key
  {
    var t := baton.Table();
    var n := baton.rpcSize / EntrySize;
    var l, u := 0, n;
    while l < u
      invariant 0 <= l <= u <= n == |t|
      invariant forall j :: 0 <= j < l ==> t[j].name != key
      invariant forall j :: u <= j < n ==> t[j].name != key
    {
      var idx := (l + u) / 2;
      var comparison := CompareMethods(key, t[idx]);
      if comparison < 0 {
        forall j | idx < j < n
          ensures t[j].name != key
        {
          StrCmpTransitive(key, t[idx].name, t[j].name);
        }
        u := idx;
      } else if comparison > 0 {
        forall j | 0 <= j < idx
          ensures t[j].name != key
        {
          StrCmpTransitive(t[j].name, t[idx].name, key);
        }
        l := idx + 1;
      } else {
        FindInSorted(t, key, idx);
        return Some(idx);
      }
    }
    r := None;
  }
}
