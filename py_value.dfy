/** Python values as they arrive from the JSON-RPC layer: strings,
    integers, booleans, None, lists and dicts. A dict is a sequence of
    fields in insertion order, as Python keeps it. */
module PyValue {
  import opened Wrappers
  import opened Text

  datatype Value =
    | Str(s: string)
    | Int(i: int)
    | Bool(b: bool)
    | Null
    | List(items: seq<Value>)
    | Dict(fields: seq<Field>)

  datatype Field = Field(key: string, value: Value)

  /** list(d.keys()) */
  function Keys(d: seq<Field>): (ks: seq<string>)
    ensures |ks| == |d|
    ensures forall i :: 0 <= i < |d| ==> ks[i] == d[i].key
  {
    if d == [] then [] else [d[0].key] + Keys(d[1..])
  }

  /** set(xs) */
  function SetOf(xs: seq<string>): set<string> {
    set x | x in xs
  }

  /** No key appears twice, which every real Python dict satisfies. */
  predicate UniqueKeys(d: seq<Field>) {
    forall i, j :: 0 <= i < j < |d| ==> d[i].key != d[j].key
  }

  predicate NoDuplicates(xs: seq<string>) {
    forall i, j :: 0 <= i < j < |xs| ==> xs[i] != xs[j]
  }

  /** `k in d` together with `d[k]`: the value of the first field named k. */
  function Get(d: seq<Field>, k: string): Option<Value> {
    if d == [] then None
    else if d[0].key == k then Some(d[0].value)
    else Get(d[1..], k)
  }

  /** `k in d` holds exactly for the keys list(d.keys()) lists. */
  lemma {:induction false} GetPresent(d: seq<Field>, k: string)
    ensures Get(d, k).Some? <==> k in Keys(d)
  {
    if d != [] {
      GetPresent(d[1..], k);
    }
  }

  /** In a dict without repeated keys, every field is what lookup finds. */
  lemma {:induction false} GetUnique(d: seq<Field>, i: nat)
    requires UniqueKeys(d) && i < |d|
    ensures Get(d, d[i].key) == Some(d[i].value)
  {
    if i > 0 {
      assert UniqueKeys(d[1..]) by {
        forall a, b | 0 <= a < b < |d| - 1 ensures d[1..][a].key != d[1..][b].key {
          assert d[1..][a] == d[a + 1] && d[1..][b] == d[b + 1];
        }
      }
      assert d[1..][i - 1] == d[i];
      GetUnique(d[1..], i - 1);
    }
  }

  /** `d[k] = v`: replaces the value of an existing key in place, or
      appends a new key at the end. */
  function Put(d: seq<Field>, k: string, v: Value): (r: seq<Field>)
    ensures k in Keys(d) ==> Keys(r) == Keys(d)
    ensures k !in Keys(d) ==> Keys(r) == Keys(d) + [k]
    ensures Get(r, k) == Some(v)
  {
    if d == [] then [Field(k, v)]
    else if d[0].key == k then [Field(k, v)] + d[1..]
    else [d[0]] + Put(d[1..], k, v)
  }

  /** `d[k] = v` leaves every other key's value alone. */
  lemma {:induction false} PutOther(d: seq<Field>, k: string, v: Value, k': string)
    requires k' != k
    ensures Get(Put(d, k, v), k') == Get(d, k')
  {
    if d != [] && d[0].key != k {
      PutOther(d[1..], k, v, k');
      assert ([d[0]] + Put(d[1..], k, v))[1..] == Put(d[1..], k, v);
    } else if d != [] {
      assert ([Field(k, v)] + d[1..])[1..] == d[1..];
    }
  }

  /** dict(zip(keys, vals)): pairs up to the shorter of the two, a later
      pair overwriting an earlier one with the same key. */
  function ZipDict(keys: seq<string>, vals: seq<Value>): seq<Field>
    decreases |keys|
  {
    var n := if |keys| < |vals| then |keys| else |vals|;
    if n == 0 then []
    else Put(ZipDict(keys[..n - 1], vals[..n - 1]), keys[n - 1], vals[n - 1])
  }

  /** dict(zip(...)) over distinct column names and one value per
      column has the columns as its keys, in order. */
  lemma {:induction false} ZipDictKeys(keys: seq<string>, vals: seq<Value>)
    requires NoDuplicates(keys) && |vals| == |keys|
    ensures Keys(ZipDict(keys, vals)) == keys
  {
    var n := |keys|;
    if n > 0 {
      var ks, vs := keys[..n - 1], vals[..n - 1];
      assert NoDuplicates(ks);
      ZipDictKeys(ks, vs);
      assert keys[n - 1] !in Keys(ZipDict(ks, vs));
      assert ks + [keys[n - 1]] == keys;
    }
  }

  /** With distinct column names and one value per column, the dict
      built by dict(zip(...)) maps each column to its own value. */
  lemma {:induction false} ZipDictLookup(keys: seq<string>, vals: seq<Value>)
    requires NoDuplicates(keys) && |vals| == |keys|
    ensures forall i :: 0 <= i < |keys| ==> Get(ZipDict(keys, vals), keys[i]) == Some(vals[i])
  {
    var n := |keys|;
    if n > 0 {
      var ks, vs := keys[..n - 1], vals[..n - 1];
      assert NoDuplicates(ks);
      ZipDictLookup(ks, vs);
      var prev := ZipDict(ks, vs);
      forall i | 0 <= i < n - 1 ensures Get(ZipDict(keys, vals), keys[i]) == Some(vals[i]) {
        assert ks[i] == keys[i] && vs[i] == vals[i];
        PutOther(prev, keys[n - 1], vals[n - 1], keys[i]);
      }
    }
  }

  /** Python truthiness: empty strings and containers, zero, False and
      None are false. */
  predicate Truthy(v: Value) {
    match v
    case Str(s) => s != ""
    case Int(i) => i != 0
    case Bool(b) => b
    case Null => false
    case List(items) => items != []
    case Dict(fields) => fields != []
  }

  /** An f-string placeholder `{v}` for scalar values; containers are
      rendered as the empty string (see the README). */
  function Format(v: Value): string {
    match v
    case Str(s) => s
    case Int(i) => IntToString(i)
    case Bool(b) => if b then "True" else "False"
    case Null => "None"
    case List(_) => ""
    case Dict(_) => ""
  }
}
