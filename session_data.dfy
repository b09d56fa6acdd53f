/**
 The session data of one request: the table `$_SESSION` of namespace name to
 (key to value), and the updates a namespace handle makes to it. Every update is
 a pure function of the old table; the class in module Session applies them in
 place. The lemmas at the end relate whole sequences of updates to the values
 a later read returns.
 */
module SessionData {

  datatype Option<+T> = None | Some(value: T)

  /** A PHP value as stored in the session. `Null` is PHP's null, which `isset` treats as absent. */
  datatype Value =
    | Null
    | Bool(b: bool)
    | Int(i: int)
    | Str(s: string)
    | Arr(entries: map<string, Value>)

  /** One namespace's data: key to value. */
  type Bag = map<string, Value>

  /** The whole session: namespace name to that namespace's data. */
  type Table = map<string, Bag>

  /** Nothing outside namespace `ns` differs between tables `t` and `r`. */
  ghost predicate SameOutside(t: Table, r: Table, ns: string)
  {
    forall o :: o != ns ==> (o in t <==> o in r) && (o in t ==> r[o] == t[o])
  }

  /** Nothing outside key `k` differs between bags `b` and `c`. */
  ghost predicate SameExcept(b: Bag, c: Bag, k: string)
  {
    forall j :: j != k ==> (j in b <==> j in c) && (j in b ==> c[j] == b[j])
  }

  /** PHP's `isset($table[$ns][$k])`: the entry exists and is not null. */
  predicate Isset(t: Table, ns: string, k: string)
  {
    ns in t && k in t[ns] && t[ns][k] != Null
  }

  /** The stored entry, null included; None when there is no entry (or no namespace). */
  function Entry(t: Table, ns: string, k: string): (e: Option<Value>)
  {
    if ns in t && k in t[ns] then Some(t[ns][k]) else None
  }

  /** The value a read with default `d` yields: the stored value when set, else `d`. */
  function GetOr(t: Table, ns: string, k: string, d: Value): (v: Value)
  {
    if Isset(t, ns, k) then t[ns][k] else d
  }

  /** The namespace's data, or the empty bag PHP creates on write when it is missing. */
  function BagOf(t: Table, ns: string): (b: Bag)
  {
    if ns in t then t[ns] else map[]
  }

  /** `$table[$ns][$k] = $v`: an upsert, creating the namespace when it is missing. */
  function Store(t: Table, ns: string, k: string, v: Value): (r: Table)
    ensures ns in r && k in r[ns] && r[ns][k] == v
    ensures Entry(r, ns, k) == Some(v)
    ensures SameExcept(BagOf(t, ns), r[ns], k)
    ensures SameOutside(t, r, ns)
    ensures r.Keys == t.Keys + {ns}
  {
    t[ns := BagOf(t, ns)[k := v]]
  }

  /** `unset($table[$ns][$k])`: drops the key; a missing key or namespace is left alone. */
  function Unset(t: Table, ns: string, k: string): (r: Table)
    ensures Entry(r, ns, k) == None && !Isset(r, ns, k)
    ensures r.Keys == t.Keys
    ensures ns in t ==> SameExcept(t[ns], r[ns], k)
    ensures SameOutside(t, r, ns)
    ensures Entry(t, ns, k) == None ==> r == t
  {
    if ns in t then
      assert k !in t[ns] ==> t[ns] - {k} == t[ns];
      t[ns := t[ns] - {k}]
    else t
  }

  /** `$table[$ns] = []`: the namespace becomes empty, and exists afterwards. */
  function ClearNamespace(t: Table, ns: string): (r: Table)
    ensures ns in r && r[ns] == map[]
    ensures forall k :: Entry(r, ns, k) == None
    ensures SameOutside(t, r, ns)
    ensures r.Keys == t.Keys + {ns}
  {
    t[ns := map[]]
  }

  /** `if (!isset($table[$ns])) $table[$ns] = []`: create the namespace only when it is absent. */
  function EnsureNamespace(t: Table, ns: string): (r: Table)
    ensures ns in r
    ensures ns in t ==> r == t
    ensures ns !in t ==> r[ns] == map[]
    ensures SameOutside(t, r, ns)
  {
    if ns in t then t else t[ns := map[]]
  }

  lemma SetThenGet(t: Table, ns: string, k: string, v: Value, d: Value)
    ensures Isset(Store(t, ns, k, v), ns, k) <==> v != Null
    ensures GetOr(Store(t, ns, k, v), ns, k, d) == if v != Null then v else d
  {
  }

  lemma LastWriteWins(t: Table, ns: string, k: string, v1: Value, v2: Value)
    ensures Store(Store(t, ns, k, v1), ns, k, v2) == Store(t, ns, k, v2)
  {
    assert BagOf(Store(t, ns, k, v1), ns)[k := v2] == BagOf(t, ns)[k := v2];
  }

  lemma ClearIdempotent(t: Table, ns: string)
    ensures ClearNamespace(ClearNamespace(t, ns), ns) == ClearNamespace(t, ns)
  {
  }

  lemma EnsureNamespaceIdempotent(t: Table, ns: string)
    ensures EnsureNamespace(EnsureNamespace(t, ns), ns) == EnsureNamespace(t, ns)
  {
  }

  /** A state-changing call a namespace handle can make. */
  datatype Op = Set(key: string, value: Value) | Remove(key: string) | Clear

  function Apply(t: Table, ns: string, op: Op): (r: Table)
  {
    match op
    case Set(k, v) => Store(t, ns, k, v)
    case Remove(k) => Unset(t, ns, k)
    case Clear => ClearNamespace(t, ns)
  }

  /** The table after the calls `ops`, in order, on the handle bound to `ns`. */
  function Run(t: Table, ns: string, ops: seq<Op>): (r: Table)
    decreases |ops|
  {
    if ops == [] then t else Apply(Run(t, ns, ops[..|ops| - 1]), ns, ops[|ops| - 1])
  }

  /**
   The effect of the last call in `ops` that decides key `k`: None when no call
   touched `k`, Some(Some(v)) when it was a write of `v`, Some(None) when it was a
   remove of `k` or a clear.
   */
  function LastWrite(ops: seq<Op>, k: string): (w: Option<Option<Value>>)
    decreases |ops|
  {
    if ops == [] then None
    else
      var last := ops[|ops| - 1];
      match last
      case Set(j, v) => if j == k then Some(Some(v)) else LastWrite(ops[..|ops| - 1], k)
      case Remove(j) => if j == k then Some(None) else LastWrite(ops[..|ops| - 1], k)
      case Clear => Some(None)
  }

  /** The entry of `k` after any sequence of calls is decided by the last call that touched `k`. */
  lemma {:induction false} RunEntry(t: Table, ns: string, ops: seq<Op>, k: string)
    ensures Entry(Run(t, ns, ops), ns, k) ==
            match LastWrite(ops, k)
            case None => Entry(t, ns, k)
            case Some(e) => e
    decreases |ops|
  {
    if ops != [] {
      var init := ops[..|ops| - 1];
      RunEntry(t, ns, init, k);
      var before := Run(t, ns, init);
      match ops[|ops| - 1]
      case Set(j, v) =>
        if j != k {
          assert SameExcept(BagOf(before, ns), Run(t, ns, ops)[ns], j);
        }
      case Remove(j) =>
        if j != k && ns in before {
          assert SameExcept(before[ns], Run(t, ns, ops)[ns], j);
        }
      case Clear =>
    }
  }

  /** Read-back over histories: a read returns the last value written to the key, unless it was null. */
  lemma RunGet(t: Table, ns: string, ops: seq<Op>, k: string, d: Value)
    ensures LastWrite(ops, k) == None ==> GetOr(Run(t, ns, ops), ns, k, d) == GetOr(t, ns, k, d)
    ensures LastWrite(ops, k) == Some(None) ==> GetOr(Run(t, ns, ops), ns, k, d) == d
    ensures forall v :: LastWrite(ops, k) == Some(Some(v)) ==>
              GetOr(Run(t, ns, ops), ns, k, d) == if v != Null then v else d
  {
    RunEntry(t, ns, ops, k);
  }

  /** Isolation: no sequence of calls on the handle for `ns` changes any other namespace. */
  lemma {:induction false} RunIsolation(t: Table, ns: string, ops: seq<Op>)
    ensures SameOutside(t, Run(t, ns, ops), ns)
    decreases |ops|
  {
    if ops != [] {
      var init := ops[..|ops| - 1];
      RunIsolation(t, ns, init);
      var before := Run(t, ns, init);
      assert SameOutside(before, Apply(before, ns, ops[|ops| - 1]), ns);
    }
  }

  /** Once the namespace exists, no sequence of calls removes it. */
  lemma {:induction false} RunKeepsNamespace(t: Table, ns: string, ops: seq<Op>)
    requires ns in t
    ensures ns in Run(t, ns, ops)
    decreases |ops|
  {
    if ops != [] {
      RunKeepsNamespace(t, ns, ops[..|ops| - 1]);
    }
  }
}
