/**
 * The TONL value tree: the closed union of values that the codec produces and
 * that the validator, the query layer and the modification helpers walk.
 * A JavaScript object is an ordered list of key/value entries (insertion order
 * is preserved; assigning an existing key replaces its value in place).
 */
module Values {
  import opened Wrappers

  /** A real number that `Number.isInteger` rejects. */
  type NonIntegral = x: real | x.Floor as real != x witness 1.0 / 2.0

  /** A JavaScript number: integers and non-integers are kept apart. */
  datatype Number = Integer(i: int) | Fraction(x: NonIntegral)
  {
    /** The numeric value of the number. */
    function AsReal(): real {
      match this
      case Integer(i) => i as real
      case Fraction(x) => x
    }
  }

  type Entries = seq<(string, Value)>

  datatype Value =
    | Null
    | Bool(b: bool)
    | Num(n: Number)
    | Str(s: string)
    | List(items: seq<Value>)
    | Obj(entries: Entries)

  /** `typeof v` in JavaScript (null and arrays are "object"). */
  function TypeOf(v: Value): (r: string)
    ensures r == "object" <==> v.Null? || v.List? || v.Obj?
    ensures r == "number" <==> v.Num?
    ensures r == "string" <==> v.Str?
    ensures r == "boolean" <==> v.Bool?
  {
    match v
    case Null => "object"
    case Bool(_) => "boolean"
    case Num(_) => "number"
    case Str(_) => "string"
    case List(_) => "object"
    case Obj(_) => "object"
  }

  /** `Number.isInteger(v)`: true exactly for integer numbers. */
  predicate IsInteger(v: Value) {
    v.Num? && v.n.Integer?
  }

  // ---------------------------------------------------------------------------
  // Ordered object entries
  // ---------------------------------------------------------------------------

  /** The keys of an object, in insertion order. */
  function KeysOf(e: Entries): (ks: seq<string>)
    ensures |ks| == |e|
    ensures forall i :: 0 <= i < |e| ==> ks[i] == e[i].0
  {
    if e == [] then [] else [e[0].0] + KeysOf(e[1..])
  }

  /** A JavaScript object never holds the same key twice. */
  predicate UniqueKeys(e: Entries) {
    forall i, j :: 0 <= i < j < |e| ==> e[i].0 != e[j].0
  }

  /** `obj[k]`: the value stored under `k`, or `None` (undefined) when `k` is absent. */
  function Lookup(e: Entries, k: string): (r: Option<Value>)
    ensures r.None? <==> k !in KeysOf(e)
    ensures r.Some? ==> exists i :: 0 <= i < |e| && e[i] == (k, r.value)
  {
    if e == [] then None
    else if e[0].0 == k then Some(e[0].1)
    else Lookup(e[1..], k)
  }

  /** `obj[k] = v`: replaces the value of an existing key in place, or appends a new key. */
  function Put(e: Entries, k: string, v: Value): (r: Entries)
    ensures |r| == |e| || |r| == |e| + 1
  {
    if e == [] then [(k, v)]
    else if e[0].0 == k then [(k, v)] + e[1..]
    else [e[0]] + Put(e[1..], k, v)
  }

  /** After `obj[k] = v`, reading `k` gives `v` and every other key reads as before. */
  lemma {:induction false} PutLookup(e: Entries, k: string, v: Value, k': string)
    ensures Lookup(Put(e, k, v), k') == if k' == k then Some(v) else Lookup(e, k')
  {
    if e != [] && e[0].0 != k {
      PutLookup(e[1..], k, v, k');
    }
  }

  /** Assignment keeps the key order: an existing key stays where it is, a new key goes last. */
  lemma {:induction false} PutKeys(e: Entries, k: string, v: Value)
    ensures k in KeysOf(e) ==> KeysOf(Put(e, k, v)) == KeysOf(e)
    ensures k !in KeysOf(e) ==> KeysOf(Put(e, k, v)) == KeysOf(e) + [k]
  {
    if e != [] {
      assert KeysOf(e) == [e[0].0] + KeysOf(e[1..]);
      if e[0].0 != k {
        PutKeys(e[1..], k, v);
        assert KeysOf(Put(e, k, v)) == [e[0].0] + KeysOf(Put(e[1..], k, v));
      } else {
        assert KeysOf(Put(e, k, v)) == [k] + KeysOf(e[1..]);
      }
    }
  }

  /** Assignment never creates a duplicate key. */
  lemma PutUnique(e: Entries, k: string, v: Value)
    requires UniqueKeys(e)
    ensures UniqueKeys(Put(e, k, v))
  {
    PutKeys(e, k, v);
    var r := Put(e, k, v);
    var ks, rs := KeysOf(e), KeysOf(r);
    forall i, j | 0 <= i < j < |r| ensures r[i].0 != r[j].0 {
      assert rs[i] == r[i].0 && rs[j] == r[j].0;
      if j < |e| {
        assert rs[i] == ks[i] && rs[j] == ks[j];
      } else {
        assert rs[i] == ks[i];
      }
    }
  }

  /** Assigning a key the value it already holds changes nothing. */
  lemma {:induction false} PutExisting(e: Entries, k: string)
    requires Lookup(e, k).Some?
    ensures Put(e, k, Lookup(e, k).value) == e
  {
    if e[0].0 != k {
      PutExisting(e[1..], k);
    }
  }

  /** A second assignment to a key overrides the first. */
  lemma {:induction false} PutTwice(e: Entries, k: string, a: Value, b: Value)
    ensures Put(Put(e, k, a), k, b) == Put(e, k, b)
  {
    if e != [] && e[0].0 != k {
      PutTwice(e[1..], k, a, b);
    }
  }

  /** Assigns each pair in turn, as `Object.assign` or a run of `obj[k] = v` does. */
  function Assign(e: Entries, pairs: Entries): Entries
    decreases |pairs|
  {
    if pairs == [] then e else Assign(Put(e, pairs[0].0, pairs[0].1), pairs[1..])
  }

  /** The value of the last pair with key `k`: the one that survives a run of assignments. */
  function LastValue(pairs: Entries, k: string): (r: Option<Value>)
    ensures r.None? <==> k !in KeysOf(pairs)
  {
    if pairs == [] then None
    else if LastValue(pairs[1..], k).Some? then LastValue(pairs[1..], k)
    else if pairs[0].0 == k then Some(pairs[0].1)
    else None
  }

  /** After a run of assignments, the last assignment to a key wins; untouched keys read as before. */
  lemma {:induction false} AssignLookup(e: Entries, pairs: Entries, k: string)
    ensures Lookup(Assign(e, pairs), k) == if k in KeysOf(pairs) then LastValue(pairs, k) else Lookup(e, k)
    decreases |pairs|
  {
    if pairs != [] {
      AssignLookup(Put(e, pairs[0].0, pairs[0].1), pairs[1..], k);
      PutLookup(e, pairs[0].0, pairs[0].1, k);
      assert KeysOf(pairs) == [pairs[0].0] + KeysOf(pairs[1..]);
    }
  }

  /** A run of assignments never creates a duplicate key. */
  lemma {:induction false} AssignUnique(e: Entries, pairs: Entries)
    requires UniqueKeys(e)
    ensures UniqueKeys(Assign(e, pairs))
    decreases |pairs|
  {
    if pairs != [] {
      PutUnique(e, pairs[0].0, pairs[0].1);
      AssignUnique(Put(e, pairs[0].0, pairs[0].1), pairs[1..]);
    }
  }

  /** In an object without repeated keys, the last value of a key is its only value. */
  lemma {:induction false} LastValueUnique(e: Entries, k: string)
    requires UniqueKeys(e)
    ensures LastValue(e, k) == Lookup(e, k)
  {
    if e != [] {
      assert UniqueKeys(e[1..]) by {
        forall i, j | 0 <= i < j < |e[1..]| ensures e[1..][i].0 != e[1..][j].0 {
          assert e[1..][i] == e[i + 1] && e[1..][j] == e[j + 1];
        }
      }
      LastValueUnique(e[1..], k);
      if e[0].0 == k {
        assert k !in KeysOf(e[1..]) by {
          forall i | 0 <= i < |e[1..]| ensures KeysOf(e[1..])[i] != k {
            assert e[1..][i] == e[i + 1];
          }
        }
      }
    }
  }

  // ---------------------------------------------------------------------------
  // Size: a termination measure for walks over the tree
  // ---------------------------------------------------------------------------

  function Size(v: Value): (n: nat)
    ensures n >= 1
  {
    match v
    case List(items) => 1 + ItemsSize(items)
    case Obj(entries) => 1 + EntriesSize(entries)
    case _ => 1
  }

  function ItemsSize(items: seq<Value>): nat {
    if items == [] then 0 else Size(items[0]) + ItemsSize(items[1..])
  }

  function EntriesSize(e: Entries): nat {
    if e == [] then 0 else EntrySize(e[0]) + EntriesSize(e[1..])
  }

  function EntrySize(entry: (string, Value)): nat {
    Size(entry.1)
  }

  /** The size of an absent value is 0. */
  function OptSize(v: Option<Value>): nat {
    if v.Some? then Size(v.value) else 0
  }

  lemma {:induction false} ItemSmaller(items: seq<Value>, i: nat)
    requires i < |items|
    ensures Size(items[i]) <= ItemsSize(items)
    ensures Size(items[i]) < Size(List(items))
  {
    if i > 0 {
      ItemSmaller(items[1..], i - 1);
    }
  }

  lemma {:induction false} LookupSmaller(e: Entries, k: string)
    ensures OptSize(Lookup(e, k)) <= EntriesSize(e)
    ensures OptSize(Lookup(e, k)) < Size(Obj(e))
  {
    if e != [] && e[0].0 != k {
      LookupSmaller(e[1..], k);
    }
  }
}
