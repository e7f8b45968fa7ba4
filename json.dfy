/** JavaScript values as the generator sees them, and the handful of language
    operations it branches on: truthiness, `typeof`, property reads (plain and
    optional-chained), property assignment, `Object.entries`, `Object.fromEntries`
    and object spread. Numbers are integers. */
module Json {
  import Text

  datatype JsValue =
    | Undefined
    | Null
    | Bool(b: bool)
    | Int(i: int)
    | Str(s: string)
    | Arr(items: seq<JsValue>)
    | Obj(fields: seq<(string, JsValue)>)

  datatype Option<+T> = None | Some(value: T)

  /** A thrown exception. Only TypeErrors arise in the modelled code. */
  datatype JsError = TypeError(message: string)

  /** Either a value or the exception that aborted its computation. */
  datatype Result<+T> = Ok(value: T) | Err(error: JsError) {
    predicate IsFailure() {
      Err?
    }

    function PropagateFailure<U>(): Result<U>
      requires Err?
    {
      Err(error)
    }

    function Extract(): T
      requires Ok?
    {
      value
    }
  }

  type Fields = seq<(string, JsValue)>

  /** JavaScript truthiness: `undefined`, `null`, `false`, `0` and `""` are falsy. */
  predicate Truthy(v: JsValue) {
    match v
    case Undefined => false
    case Null => false
    case Bool(b) => b
    case Int(i) => i != 0
    case Str(s) => s != ""
    case Arr(_) => true
    case Obj(_) => true
  }

  /** The `typeof` operator (`typeof null` is "object", as is an array). */
  function TypeOf(v: JsValue): string {
    match v
    case Undefined => "undefined"
    case Null => "object"
    case Bool(_) => "boolean"
    case Int(_) => "number"
    case Str(_) => "string"
    case Arr(_) => "object"
    case Obj(_) => "object"
  }

  /** `a || b` */
  function Or(a: JsValue, b: JsValue): JsValue {
    if Truthy(a) then a else b
  }

  function Nullish(v: JsValue): bool {
    v == Undefined || v == Null
  }

  /** The value stored under `k`, `undefined` when there is none. */
  function Lookup(fs: Fields, k: string): JsValue
    decreases |fs|
  {
    if fs == [] then Undefined
    else if fs[0].0 == k then fs[0].1
    else Lookup(fs[1..], k)
  }

  function Keys(fs: Fields): seq<string> {
    seq(|fs|, i requires 0 <= i < |fs| => fs[i].0)
  }

  predicate HasKey(fs: Fields, k: string) {
    exists i :: 0 <= i < |fs| && fs[i].0 == k
  }

  predicate DistinctKeys(fs: Fields) {
    forall i, j :: 0 <= i < j < |fs| ==> fs[i].0 != fs[j].0
  }

  /** `v?.k`: a named property read; primitives and arrays carry none of the names
      the generator reads, and a nullish `v` gives `undefined`. */
  function Get(v: JsValue, k: string): JsValue {
    if v.Obj? then Lookup(v.fields, k) else Undefined
  }

  /** `v[i]` on an array. */
  function At(v: JsValue, i: nat): JsValue {
    if v.Arr? && i < |v.items| then v.items[i] else Undefined
  }

  /** `o[k] = x`: an existing key keeps its position, a new key goes last. */
  function Assign(fs: Fields, k: string, x: JsValue): (r: Fields)
    decreases |fs|
  {
    if fs == [] then [(k, x)]
    else if fs[0].0 == k then [(k, x)] + fs[1..]
    else [fs[0]] + Assign(fs[1..], k, x)
  }

  /** Successive assignments of `es` in order onto `fs`. */
  function AssignAll(fs: Fields, es: Fields): Fields
    decreases |es|
  {
    if es == [] then fs else AssignAll(Assign(fs, es[0].0, es[0].1), es[1..])
  }

  /** `Object.fromEntries(es)` */
  function FromEntries(es: Fields): JsValue {
    Obj(AssignAll([], es))
  }

  function IndexKey(i: nat): string {
    Text.NatToString(i)
  }

  function Indexed(items: seq<JsValue>): Fields {
    seq(|items|, i requires 0 <= i < |items| => (IndexKey(i), items[i]))
  }

  /** `Object.entries(v)` of an object or an array. */
  function Entries(v: JsValue): Fields {
    match v
    case Obj(fs) => fs
    case Arr(items) => Indexed(items)
    case _ => []
  }

  /** The own enumerable properties that `{...v}` copies. */
  function Spread(v: JsValue): Fields {
    match v
    case Obj(fs) => fs
    case Arr(items) => Indexed(items)
    case Str(s) => Indexed(seq(|s|, i requires 0 <= i < |s| => Str([s[i]])))
    case _ => []
  }

  /** `{ ...a, ...b }` */
  function SpreadMerge(a: JsValue, b: JsValue): Fields {
    AssignAll(AssignAll([], Spread(a)), Spread(b))
  }

  // ---------------------------------------------------------------------------
  // Facts about assignment and lookup

  lemma {:induction false} LookupAssign(fs: Fields, k: string, x: JsValue, q: string)
    ensures Lookup(Assign(fs, k, x), q) == if q == k then x else Lookup(fs, q)
    ensures HasKey(Assign(fs, k, x), q) <==> q == k || HasKey(fs, q)
    ensures |Assign(fs, k, x)| == if HasKey(fs, k) then |fs| else |fs| + 1
    decreases |fs|
  {
    if fs != [] && fs[0].0 != k {
      LookupAssign(fs[1..], k, x, q);
      var r := Assign(fs, k, x);
      assert r[1..] == Assign(fs[1..], k, x);
      HasKeyCons(fs, q);
      HasKeyCons(fs, k);
      HasKeyCons(r, q);
    } else if fs != [] {
      var r := Assign(fs, k, x);
      assert r[1..] == fs[1..];
      HasKeyCons(fs, q);
      HasKeyCons(r, q);
      assert HasKey(fs, k) by { assert fs[0].0 == k; }
    }
  }

  lemma HasKeyCons(fs: Fields, q: string)
    requires fs != []
    ensures HasKey(fs, q) <==> fs[0].0 == q || HasKey(fs[1..], q)
  {
    if HasKey(fs, q) && fs[0].0 != q {
      var i :| 0 <= i < |fs| && fs[i].0 == q;
      assert fs[1..][i - 1].0 == q;
    }
    if HasKey(fs[1..], q) {
      var i :| 0 <= i < |fs[1..]| && fs[1..][i].0 == q;
      assert fs[i + 1].0 == q;
    }
  }

  /** The value under the first entry carrying key `k`. */
  lemma {:induction false} LookupAt(fs: Fields, i: nat, k: string)
    requires i < |fs| && fs[i].0 == k
    requires forall j :: 0 <= j < i ==> fs[j].0 != k
    ensures Lookup(fs, k) == fs[i].1
  {
    if i > 0 {
      LookupAt(fs[1..], i - 1, k);
    }
  }

  lemma {:induction false} LookupMissing(fs: Fields, q: string)
    requires !HasKey(fs, q)
    ensures Lookup(fs, q) == Undefined
    decreases |fs|
  {
    if fs != [] {
      HasKeyCons(fs, q);
      LookupMissing(fs[1..], q);
    }
  }

  /** Assignment keeps keys distinct. */
  lemma {:induction false} AssignDistinct(fs: Fields, k: string, x: JsValue)
    requires DistinctKeys(fs)
    ensures DistinctKeys(Assign(fs, k, x))
    decreases |fs|
  {
    if fs != [] {
      DistinctTail(fs);
      if fs[0].0 == k {
        DistinctCons((k, x), fs[1..]);
      } else {
        AssignDistinct(fs[1..], k, x);
        LookupAssign(fs[1..], k, x, fs[0].0);
        DistinctCons(fs[0], Assign(fs[1..], k, x));
      }
    }
  }

  lemma DistinctTail(fs: Fields)
    requires fs != [] && DistinctKeys(fs)
    ensures DistinctKeys(fs[1..]) && !HasKey(fs[1..], fs[0].0)
  {
    assert forall i :: 0 <= i < |fs[1..]| ==> fs[1..][i].0 == fs[i + 1].0;
  }

  lemma DistinctCons(e: (string, JsValue), fs: Fields)
    requires DistinctKeys(fs) && !HasKey(fs, e.0)
    ensures DistinctKeys([e] + fs)
  {
    assert forall j :: 1 <= j < |fs| + 1 ==> ([e] + fs)[j] == fs[j - 1];
  }

  /** Assigning a key that is not present appends it. */
  lemma {:induction false} AssignFresh(fs: Fields, k: string, x: JsValue)
    requires !HasKey(fs, k)
    ensures Assign(fs, k, x) == fs + [(k, x)]
    decreases |fs|
  {
    if fs != [] {
      HasKeyCons(fs, k);
      AssignFresh(fs[1..], k, x);
      assert [fs[0]] + (fs[1..] + [(k, x)]) == fs + [(k, x)];
    }
  }

  /** Assigning distinct fresh keys one after another just appends them. */
  lemma {:induction false} AssignAllFresh(fs: Fields, es: Fields)
    requires DistinctKeys(fs + es)
    ensures AssignAll(fs, es) == fs + es
    decreases |es|
  {
    if es != [] {
      assert forall i :: 0 <= i < |fs| ==> fs[i].0 == (fs + es)[i].0 != (fs + es)[|fs|].0 == es[0].0;
      AssignFresh(fs, es[0].0, es[0].1);
      assert fs + es == (fs + [es[0]]) + es[1..];
      AssignAllFresh(fs + [es[0]], es[1..]);
    }
  }

  /** `Object.fromEntries` of entries with distinct keys keeps them as they are. */
  lemma FromEntriesDistinct(es: Fields)
    requires DistinctKeys(es)
    ensures FromEntries(es) == Obj(es)
  {
    assert [] + es == es;
    AssignAllFresh([], es);
  }

  /** The keys present after successive assignments are the old ones and the assigned ones. */
  lemma {:induction false} AssignAllKeys(fs: Fields, es: Fields, q: string)
    ensures HasKey(AssignAll(fs, es), q) <==> HasKey(fs, q) || HasKey(es, q)
    decreases |es|
  {
    if es != [] {
      LookupAssign(fs, es[0].0, es[0].1, q);
      AssignAllKeys(Assign(fs, es[0].0, es[0].1), es[1..], q);
      HasKeyCons(es, q);
    }
  }

  /** After successive assignments a key holds the last value assigned to it, or its
      old value when it was never assigned. */
  lemma {:induction false} AssignAllLookup(fs: Fields, es: Fields, q: string)
    ensures Lookup(AssignAll(fs, es), q) == if HasKey(es, q) then LastValue(es, q) else Lookup(fs, q)
    decreases |es|
  {
    if es != [] {
      LookupAssign(fs, es[0].0, es[0].1, q);
      AssignAllLookup(Assign(fs, es[0].0, es[0].1), es[1..], q);
      HasKeyCons(es, q);
      LastValueCons(es, q);
    }
  }

  lemma {:induction false} AssignAllDistinct(fs: Fields, es: Fields)
    requires DistinctKeys(fs)
    ensures DistinctKeys(AssignAll(fs, es))
    decreases |es|
  {
    if es != [] {
      AssignDistinct(fs, es[0].0, es[0].1);
      AssignAllDistinct(Assign(fs, es[0].0, es[0].1), es[1..]);
    }
  }

  /** In `{ ...a, ...b }` a key of `b` takes its last value in `b`; any other key
      keeps its last value in `a`; a key of neither is absent. */
  lemma SpreadMergeLookup(a: JsValue, b: JsValue, q: string)
    ensures Lookup(SpreadMerge(a, b), q) ==
      if HasKey(Spread(b), q) then LastValue(Spread(b), q)
      else if HasKey(Spread(a), q) then LastValue(Spread(a), q)
      else Undefined
    ensures HasKey(SpreadMerge(a, b), q) <==> HasKey(Spread(a), q) || HasKey(Spread(b), q)
  {
    AssignAllLookup(AssignAll([], Spread(a)), Spread(b), q);
    AssignAllLookup([], Spread(a), q);
    AssignAllKeys(AssignAll([], Spread(a)), Spread(b), q);
    AssignAllKeys([], Spread(a), q);
  }

  /** The value of the last entry with key `q`. */
  function LastValue(es: Fields, q: string): JsValue
    decreases |es|
  {
    if es == [] then Undefined
    else if es[|es| - 1].0 == q then es[|es| - 1].1
    else LastValue(es[..|es| - 1], q)
  }

  lemma {:induction false} LastValueCons(es: Fields, q: string)
    requires es != []
    ensures HasKey(es[1..], q) ==> LastValue(es, q) == LastValue(es[1..], q)
    ensures !HasKey(es[1..], q) && es[0].0 == q ==> LastValue(es, q) == es[0].1
    decreases |es|
  {
    var n := |es|;
    if n > 1 {
      var init := es[..n - 1];
      assert init[1..] == es[1..][..n - 2];
      if es[n - 1].0 != q {
        assert HasKey(es[1..], q) ==> HasKey(init[1..], q) by {
          if HasKey(es[1..], q) {
            var i :| 0 <= i < |es[1..]| && es[1..][i].0 == q;
            assert i < n - 2;
            assert init[1..][i].0 == q;
          }
        }
        assert !HasKey(es[1..], q) ==> !HasKey(init[1..], q) by {
          if HasKey(init[1..], q) {
            var i :| 0 <= i < |init[1..]| && init[1..][i].0 == q;
            assert es[1..][i].0 == q;
          }
        }
        LastValueCons(init, q);
      } else {
        assert es[1..][n - 2].0 == q;
      }
    }
  }

  lemma {:induction false} LookupDistinct(fs: Fields, i: nat)
    requires DistinctKeys(fs) && i < |fs|
    ensures Lookup(fs, fs[i].0) == fs[i].1
    decreases i
  {
    if i > 0 {
      assert DistinctKeys(fs[1..]) by {
        forall a, b | 0 <= a < b < |fs[1..]| ensures fs[1..][a].0 != fs[1..][b].0 {
          assert fs[1..][a] == fs[a + 1] && fs[1..][b] == fs[b + 1];
        }
      }
      assert fs[1..][i - 1] == fs[i];
      LookupDistinct(fs[1..], i - 1);
    }
  }

  // ---------------------------------------------------------------------------
  // Property values are structurally smaller than their holder (for termination)

  lemma {:induction false} LookupIn(fs: Fields, k: string)
    ensures Lookup(fs, k) == Undefined || exists i :: 0 <= i < |fs| && fs[i].1 == Lookup(fs, k)
    decreases |fs|
  {
    if fs != [] && fs[0].0 != k {
      LookupIn(fs[1..], k);
      assert forall i :: 0 <= i < |fs[1..]| ==> fs[1..][i] == fs[i + 1];
    }
  }

  /** A property that is present is smaller than the object holding it. */
  lemma GetSmaller(v: JsValue, k: string)
    ensures Get(v, k) == Undefined || (v decreases to Get(v, k))
  {
    if v.Obj? && Get(v, k) != Undefined {
      LookupIn(v.fields, k);
      var i :| 0 <= i < |v.fields| && v.fields[i].1 == Get(v, k);
      assert v.fields[i] in v.fields;
    }
  }

  /** Every entry value is smaller than the object or array it came from. */
  lemma EntrySmaller(v: JsValue, i: nat)
    requires i < |Entries(v)|
    ensures v decreases to Entries(v)[i].1
  {
    match v
    case Obj(fs) => assert fs[i] in fs;
    case Arr(items) => assert items[i] in items;
  }
}
