/**
 * In-place array operations on the array a path resolves to
 * (src/modification/array-ops.ts): `push`, `pop`, `unshift` and `shift`.
 *
 * Each operation parses the path, evaluates it against the document, throws
 * unless the result is an array, and then mutates that array in place. The
 * `*Outcome` functions state the result and the document afterwards; the
 * methods perform the operation on a `Document` and are proved to agree.
 */
module ArrayOps {
  import opened Wrappers
  import opened Values
  import opened Paths

  /** Parse and evaluate the path and demand an array (src/modification/array-ops.ts:12-20). */
  function ResolveArray(root: Value, api: PathApi, path: string): (r: Result<(Target, seq<Value>), OpError>)
    ensures r.Ok? ==> ValueAt(root, r.value.0) == Some(List(r.value.1))
  {
    match api.parsePath(path)
    case ParseFailed(e) => Err(PathSyntax(e))
    case Parsed(evaluate) =>
      var t := evaluate(root);
      var v := ValueAt(root, t);
      if v.Some? && v.value.List? then Ok((t, v.value.items)) else Err(NotAnArray(path))
  }

  function PushOutcome(root: Value, api: PathApi, path: string, values: seq<Value>): (Result<nat, OpError>, Value) {
    var a := ResolveArray(root, api, path);
    if a.Err? then (Err(a.error), root)
    else
      var (t, items) := a.value;
      (Ok(|items| + |values|), Replace(root, t, List(items + values)))
  }

  function PopOutcome(root: Value, api: PathApi, path: string): (Result<Option<Value>, OpError>, Value) {
    var a := ResolveArray(root, api, path);
    if a.Err? then (Err(a.error), root)
    else
      var (t, items) := a.value;
      if items == [] then (Ok(None), root)
      else (Ok(Some(items[|items| - 1])), Replace(root, t, List(items[..|items| - 1])))
  }

  function UnshiftOutcome(root: Value, api: PathApi, path: string, values: seq<Value>): (Result<nat, OpError>, Value) {
    var a := ResolveArray(root, api, path);
    if a.Err? then (Err(a.error), root)
    else
      var (t, items) := a.value;
      (Ok(|values| + |items|), Replace(root, t, List(values + items)))
  }

  function ShiftOutcome(root: Value, api: PathApi, path: string): (Result<Option<Value>, OpError>, Value) {
    var a := ResolveArray(root, api, path);
    if a.Err? then (Err(a.error), root)
    else
      var (t, items) := a.value;
      if items == [] then (Ok(None), root)
      else (Ok(Some(items[0])), Replace(root, t, List(items[1..])))
  }

  // ---------------------------------------------------------------------------
  // Properties
  // ---------------------------------------------------------------------------

  /** The path is refused exactly when it does not parse or does not evaluate to an array, and the error says which. */
  lemma ResolveArrayFails(root: Value, api: PathApi, path: string)
    ensures api.parsePath(path).ParseFailed? ==>
            ResolveArray(root, api, path) == Err(PathSyntax(api.parsePath(path).error))
    ensures api.parsePath(path).Parsed? ==>
            (ResolveArray(root, api, path).Err? <==>
             !(ValueAt(root, api.parsePath(path).evaluate(root)).Some? &&
               ValueAt(root, api.parsePath(path).evaluate(root)).value.List?))
    ensures ResolveArray(root, api, path).Err? && api.parsePath(path).Parsed? ==>
            ResolveArray(root, api, path).error == NotAnArray(path)
  {
  }

  /** Every operation that throws leaves the document as it was. */
  lemma FailureChangesNothing(root: Value, api: PathApi, path: string, values: seq<Value>)
    requires ResolveArray(root, api, path).Err?
    ensures var e := ResolveArray(root, api, path).error;
            PushOutcome(root, api, path, values) == (Err(e), root) &&
            PopOutcome(root, api, path) == (Err(e), root) &&
            UnshiftOutcome(root, api, path, values) == (Err(e), root) &&
            ShiftOutcome(root, api, path) == (Err(e), root)
  {
  }

  /** How a mutation of the resolved array shows in the document. */
  ghost predicate EditedTo(root: Value, root': Value, t: Target, items': seq<Value>) {
    (t.InDocument? ==> Get(root', t.loc) == Some(List(items'))) &&
    (!t.InDocument? ==> root' == root) &&
    forall other: Location | t.InDocument? && Diverge(t.loc, other) :: Get(root', other) == Get(root, other)
  }

  lemma ReplaceEdits(root: Value, t: Target, items': seq<Value>)
    requires ValueAt(root, t).Some?
    ensures EditedTo(root, Replace(root, t, List(items')), t, items')
  {
    forall other: Location | t.InDocument? && Diverge(t.loc, other)
      ensures Get(Replace(root, t, List(items')), other) == Get(root, other)
    {
      ReplaceLocal(root, t, List(items'), other);
    }
    ReplaceLocal(root, t, List(items'), []);
  }

  /** `push` appends the values in order and returns the new length (src/modification/array-ops.ts:22-23). */
  lemma PushAppends(root: Value, api: PathApi, path: string, values: seq<Value>)
    requires ResolveArray(root, api, path).Ok?
    ensures var (t, items) := ResolveArray(root, api, path).value;
            var (r, root') := PushOutcome(root, api, path, values);
            r == Ok(|items| + |values|) && EditedTo(root, root', t, items + values)
  {
    var (t, items) := ResolveArray(root, api, path).value;
    ReplaceEdits(root, t, items + values);
  }

  /** `unshift` prepends the values in their given order and returns the new length (src/modification/array-ops.ts:57-58). */
  lemma UnshiftPrepends(root: Value, api: PathApi, path: string, values: seq<Value>)
    requires ResolveArray(root, api, path).Ok?
    ensures var (t, items) := ResolveArray(root, api, path).value;
            var (r, root') := UnshiftOutcome(root, api, path, values);
            r == Ok(|values| + |items|) && EditedTo(root, root', t, values + items)
  {
    var (t, items) := ResolveArray(root, api, path).value;
    ReplaceEdits(root, t, values + items);
  }

  /** `pop` removes and returns the last element; on an empty array it returns undefined and changes nothing. */
  lemma PopRemovesLast(root: Value, api: PathApi, path: string)
    requires ResolveArray(root, api, path).Ok?
    ensures var (t, items) := ResolveArray(root, api, path).value;
            var (r, root') := PopOutcome(root, api, path);
            (items == [] ==> r == Ok(None) && root' == root) &&
            (items != [] ==> r == Ok(Some(items[|items| - 1])) && EditedTo(root, root', t, items[..|items| - 1]) &&
                             items == items[..|items| - 1] + [r.value.value])
  {
    var (t, items) := ResolveArray(root, api, path).value;
    if items != [] {
      ReplaceEdits(root, t, items[..|items| - 1]);
    }
  }

  /** `shift` removes and returns the first element; the rest keep their order. */
  lemma ShiftRemovesFirst(root: Value, api: PathApi, path: string)
    requires ResolveArray(root, api, path).Ok?
    ensures var (t, items) := ResolveArray(root, api, path).value;
            var (r, root') := ShiftOutcome(root, api, path);
            (items == [] ==> r == Ok(None) && root' == root) &&
            (items != [] ==> r == Ok(Some(items[0])) && EditedTo(root, root', t, items[1..]) &&
                             items == [r.value.value] + items[1..])
  {
    var (t, items) := ResolveArray(root, api, path).value;
    if items != [] {
      ReplaceEdits(root, t, items[1..]);
    }
  }

  /** The path keeps referring to the same node after the document changes. */
  ghost predicate StableAt(api: PathApi, path: string, loc: Location, roots: set<Value>) {
    api.parsePath(path).Parsed? && forall root | root in roots :: api.parsePath(path).evaluate(root) == InDocument(loc)
  }

  /** Pushing one value and popping it again returns that value and restores the document. */
  lemma PushThenPop(root: Value, api: PathApi, path: string, loc: Location, x: Value)
    requires ResolveArray(root, api, path).Ok?
    requires StableAt(api, path, loc, {root, PushOutcome(root, api, path, [x]).1})
    ensures var root' := PushOutcome(root, api, path, [x]).1;
            PopOutcome(root', api, path) == (Ok(Some(x)), root)
  {
    var items := ResolveArray(root, api, path).value.1;
    var root' := PushOutcome(root, api, path, [x]).1;
    GetUpdate(root, loc, List(items + [x]));
    assert (items + [x])[..|items|] == items;
    UpdateTwice(root, loc, List(items + [x]), List(items));
    UpdateSame(root, loc);
  }

  /** Unshifting one value and shifting it again returns that value and restores the document. */
  lemma UnshiftThenShift(root: Value, api: PathApi, path: string, loc: Location, x: Value)
    requires ResolveArray(root, api, path).Ok?
    requires StableAt(api, path, loc, {root, UnshiftOutcome(root, api, path, [x]).1})
    ensures var root' := UnshiftOutcome(root, api, path, [x]).1;
            ShiftOutcome(root', api, path) == (Ok(Some(x)), root)
  {
    var items := ResolveArray(root, api, path).value.1;
    GetUpdate(root, loc, List([x] + items));
    assert ([x] + items)[1..] == items;
    UpdateTwice(root, loc, List([x] + items), List(items));
    UpdateSame(root, loc);
  }

  // ---------------------------------------------------------------------------
  // The operations on a document
  // ---------------------------------------------------------------------------

  /** push (src/modification/array-ops.ts:11-24). */
  method Push(doc: Document, api: PathApi, arrayPath: string, values: seq<Value>) returns (r: Result<nat, OpError>)
    modifies doc
    ensures (r, doc.root) == PushOutcome(old(doc.root), api, arrayPath, values)
  {
    var a := ResolveArray(doc.root, api, arrayPath);
    if a.Err? {
      return Err(a.error);
    }
    var (target, items) := a.value;
    doc.root := Replace(doc.root, target, List(items + values));
    r := Ok(|items + values|);
  }

  /** pop (src/modification/array-ops.ts:29-41). */
  method Pop(doc: Document, api: PathApi, arrayPath: string) returns (r: Result<Option<Value>, OpError>)
    modifies doc
    ensures (r, doc.root) == PopOutcome(old(doc.root), api, arrayPath)
  {
    var a := ResolveArray(doc.root, api, arrayPath);
    if a.Err? {
      return Err(a.error);
    }
    var (target, items) := a.value;
    if items == [] {
      return Ok(None);
    }
    var last := items[|items| - 1];
    doc.root := Replace(doc.root, target, List(items[..|items| - 1]));
    r := Ok(Some(last));
  }

  /** unshift (src/modification/array-ops.ts:46-59). */
  method Unshift(doc: Document, api: PathApi, arrayPath: string, values: seq<Value>) returns (r: Result<nat, OpError>)
    modifies doc
    ensures (r, doc.root) == UnshiftOutcome(old(doc.root), api, arrayPath, values)
  {
    var a := ResolveArray(doc.root, api, arrayPath);
    if a.Err? {
      return Err(a.error);
    }
    var (target, items) := a.value;
    doc.root := Replace(doc.root, target, List(values + items));
    r := Ok(|values + items|);
  }

  /** shift (src/modification/array-ops.ts:64-76). */
  method Shift(doc: Document, api: PathApi, arrayPath: string) returns (r: Result<Option<Value>, OpError>)
    modifies doc
    ensures (r, doc.root) == ShiftOutcome(old(doc.root), api, arrayPath)
  {
    var a := ResolveArray(doc.root, api, arrayPath);
    if a.Err? {
      return Err(a.error);
    }
    var (target, items) := a.value;
    if items == [] {
      return Ok(None);
    }
    var first := items[0];
    doc.root := Replace(doc.root, target, List(items[1..]));
    r := Ok(Some(first));
  }
}
