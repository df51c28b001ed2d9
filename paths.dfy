/**
 * Locations inside a document and the path collaborators of the modification
 * API.
 *
 * A path expression is parsed by `parsePath` and evaluated by `evaluate`; both
 * live in src/query, which is not part of this model, and so does `set`
 * (src/modification/setter.ts). They enter the model as the function-typed
 * fields of `PathApi`. What `evaluate` returns is a `Target`: a reference to a
 * node inside the document (a `Location`), a value that is not part of the
 * document, or `undefined`. Mutating a referenced node changes the document;
 * mutating a detached value does not.
 */
module Paths {
  import opened Wrappers
  import opened Values

  // ---------------------------------------------------------------------------
  // Locations
  // ---------------------------------------------------------------------------

  datatype Step = Key(name: string) | Index(i: nat)

  type Location = seq<Step>

  /** The node at `loc`, if every step exists. */
  function Get(v: Value, loc: Location): Option<Value>
    decreases |loc|
  {
    if loc == [] then Some(v)
    else
      match loc[0]
      case Key(k) =>
        if v.Obj? && Lookup(v.entries, k).Some? then Get(Lookup(v.entries, k).value, loc[1..]) else None
      case Index(i) =>
        if v.List? && i < |v.items| then Get(v.items[i], loc[1..]) else None
  }

  /** The document with the node at `loc` replaced by `w`: an in-place write through a reference. */
  function Update(v: Value, loc: Location, w: Value): Value
    requires Get(v, loc).Some?
    decreases |loc|
  {
    if loc == [] then w
    else
      match loc[0]
      case Key(k) => Obj(Put(v.entries, k, Update(Lookup(v.entries, k).value, loc[1..], w)))
      case Index(i) => List(v.items[i := Update(v.items[i], loc[1..], w)])
  }

  /** The two locations part ways: neither lies inside the other. */
  predicate Diverge(a: Location, b: Location) {
    exists i :: 0 <= i < |a| && i < |b| && a[i] != b[i]
  }

  /** Writing a node makes the node read back as what was written. */
  lemma {:induction false} GetUpdate(v: Value, loc: Location, w: Value)
    requires Get(v, loc).Some?
    ensures Get(Update(v, loc, w), loc) == Some(w)
    decreases |loc|
  {
    if loc != [] {
      var rest := loc[1..];
      match loc[0]
      case Key(k) =>
        var child := Lookup(v.entries, k).value;
        GetUpdate(child, rest, w);
        PutLookup(v.entries, k, Update(child, rest, w), k);
      case Index(i) =>
        GetUpdate(v.items[i], rest, w);
    }
  }

  /** Writing a node leaves every node outside it as it was. */
  lemma {:induction false} UpdateElsewhere(v: Value, loc: Location, w: Value, other: Location)
    requires Get(v, loc).Some? && Diverge(loc, other)
    ensures Get(Update(v, loc, w), other) == Get(v, other)
    decreases |loc|
  {
    var d :| 0 <= d < |loc| && d < |other| && loc[d] != other[d];
    var rest := loc[1..];
    match loc[0]
    case Key(k) =>
      var child := Lookup(v.entries, k).value;
      var written := Update(child, rest, w);
      var e' := Put(v.entries, k, written);
      if other[0] == loc[0] {
        assert rest[d - 1] != other[1..][d - 1];
        UpdateElsewhere(child, rest, w, other[1..]);
        PutLookup(v.entries, k, written, k);
      } else if other[0].Key? {
        PutLookup(v.entries, k, written, other[0].name);
      }
    case Index(i) =>
      var written := Update(v.items[i], rest, w);
      if other[0] == loc[0] {
        assert rest[d - 1] != other[1..][d - 1];
        UpdateElsewhere(v.items[i], rest, w, other[1..]);
      }
  }

  /** Writing back the node that is already there changes nothing. */
  lemma {:induction false} UpdateSame(v: Value, loc: Location)
    requires Get(v, loc).Some?
    ensures Update(v, loc, Get(v, loc).value) == v
    decreases |loc|
  {
    if loc != [] {
      match loc[0]
      case Key(k) =>
        var child := Lookup(v.entries, k).value;
        UpdateSame(child, loc[1..]);
        PutExisting(v.entries, k);
      case Index(i) =>
        UpdateSame(v.items[i], loc[1..]);
    }
  }

  /** A second write to the same node overrides the first. */
  lemma {:induction false} UpdateTwice(v: Value, loc: Location, w1: Value, w2: Value)
    requires Get(v, loc).Some?
    ensures Get(Update(v, loc, w1), loc).Some?
    ensures Update(Update(v, loc, w1), loc, w2) == Update(v, loc, w2)
    decreases |loc|, 1
  {
    GetUpdate(v, loc, w1);
    if loc != [] {
      if loc[0].Key? {
        UpdateTwiceKey(v, loc, w1, w2);
      } else {
        UpdateTwiceIndex(v, loc, w1, w2);
      }
    }
  }

  lemma {:induction false} UpdateTwiceKey(v: Value, loc: Location, w1: Value, w2: Value)
    requires Get(v, loc).Some? && loc != [] && loc[0].Key?
    requires Get(Update(v, loc, w1), loc).Some?
    ensures Update(Update(v, loc, w1), loc, w2) == Update(v, loc, w2)
    decreases |loc|, 0
  {
    var k := loc[0].name;
    var rest := loc[1..];
    var child := Lookup(v.entries, k).value;
    var first := Update(child, rest, w1);
    var v1 := Obj(Put(v.entries, k, first));
    assert Update(v, loc, w1) == v1;
    PutLookup(v.entries, k, first, k);
    UpdateTwice(child, rest, w1, w2);
    assert Update(v1, loc, w2) == Obj(Put(v1.entries, k, Update(first, rest, w2)));
    PutTwice(v.entries, k, first, Update(child, rest, w2));
  }

  lemma {:induction false} UpdateTwiceIndex(v: Value, loc: Location, w1: Value, w2: Value)
    requires Get(v, loc).Some? && loc != [] && loc[0].Index?
    requires Get(Update(v, loc, w1), loc).Some?
    ensures Update(Update(v, loc, w1), loc, w2) == Update(v, loc, w2)
    decreases |loc|, 0
  {
    var i := loc[0].i;
    var rest := loc[1..];
    var first := Update(v.items[i], rest, w1);
    var v1 := List(v.items[i := first]);
    assert Update(v, loc, w1) == v1;
    UpdateTwice(v.items[i], rest, w1, w2);
    assert Update(v1, loc, w2) == List(v1.items[i := Update(first, rest, w2)]);
  }

  // ---------------------------------------------------------------------------
  // What a path evaluates to, and the collaborators
  // ---------------------------------------------------------------------------

  datatype Target = InDocument(loc: Location) | Detached(value: Value) | Undefined

  /** The value a target denotes in the current document (`None` for `undefined`). */
  function ValueAt(root: Value, t: Target): Option<Value> {
    match t
    case InDocument(loc) => Get(root, loc)
    case Detached(v) => Some(v)
    case Undefined => None
  }

  /** The document after the target's value is mutated into `w`: only a referenced node is part of the document. */
  function Replace(root: Value, t: Target, w: Value): Value
    requires ValueAt(root, t).Some?
  {
    if t.InDocument? then Update(root, t.loc, w) else root
  }

  /** Mutating a referenced node: it reads back as `w` and every node outside it is untouched. */
  lemma ReplaceLocal(root: Value, t: Target, w: Value, other: Location)
    requires ValueAt(root, t).Some?
    ensures t.InDocument? ==> Get(Replace(root, t, w), t.loc) == Some(w)
    ensures t.InDocument? && Diverge(t.loc, other) ==> Get(Replace(root, t, w), other) == Get(root, other)
    ensures !t.InDocument? ==> Replace(root, t, w) == root
  {
    if t.InDocument? {
      GetUpdate(root, t.loc, w);
      if Diverge(t.loc, other) {
        UpdateElsewhere(root, t.loc, w, other);
      }
    }
  }

  /** The result of parsePath: on success the parsed expression, represented by what it evaluates to. */
  datatype ParseOutcome = Parsed(evaluate: Value -> Target) | ParseFailed(error: string)

  /** The result of `set` (`setter`): the document afterwards and the reported `success`, or an exception. */
  datatype SetOutcome = Applied(root: Value, success: bool) | Threw

  datatype PathApi = PathApi(
    parsePath: string -> ParseOutcome,
    setter: (Value, string, Value) -> SetOutcome)

  /** Why an operation threw. */
  datatype OpError =
    | PathSyntax(message: string)
    | NotAnArray(path: string)
    | NotAnObject(path: string)
    | SetThrew

  /** The document the operations mutate. */
  class Document {
    var root: Value

    constructor(root: Value)
      ensures this.root == root
    {
      this.root := root;
    }
  }
}
