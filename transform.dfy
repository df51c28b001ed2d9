/**
 * Bulk modification helpers (src/modification/transform.ts): `transform`
 * rewrites the value at one path through a callback and `set`, `updateMany`
 * sets one value at many paths and counts the successes, and `merge` assigns
 * the keys of an update object onto the object a path resolves to.
 */
module Transform {
  import opened Wrappers
  import opened Values
  import opened Paths

  // ---------------------------------------------------------------------------
  // transform
  // ---------------------------------------------------------------------------

  /** What transform returns and the document afterwards; `fn` receives `None` for `undefined`. */
  function TransformOutcome(root: Value, api: PathApi, path: string, fn: Option<Value> -> Value)
    : (Result<nat, OpError>, Value)
  {
    match api.parsePath(path)
    case ParseFailed(e) => (Err(PathSyntax(e)), root)
    case Parsed(evaluate) =>
      var value := ValueAt(root, evaluate(root));
      if value.Some? && value.value.List? then (Ok(0), root)
      else
        match api.setter(root, path, fn(value))
        case Threw => (Err(SetThrew), root)
        case Applied(root', _) => (Ok(1), root')
  }

  /**
   * transform throws on a path that does not parse; on an array it returns 0
   * and changes nothing; otherwise it hands `fn(value)` to `set` once and
   * returns 1, whether or not `set` reported success.
   */
  lemma TransformCases(root: Value, api: PathApi, path: string, fn: Option<Value> -> Value)
    ensures api.parsePath(path).ParseFailed? ==>
            TransformOutcome(root, api, path, fn) == (Err(PathSyntax(api.parsePath(path).error)), root)
    ensures api.parsePath(path).Parsed? ==>
            var value := ValueAt(root, api.parsePath(path).evaluate(root));
            var r := TransformOutcome(root, api, path, fn);
            (value.Some? && value.value.List? ==> r == (Ok(0), root)) &&
            (!(value.Some? && value.value.List?) ==>
               (api.setter(root, path, fn(value)).Threw? <==> r == (Err(SetThrew), root)) &&
               (api.setter(root, path, fn(value)).Applied? ==> r == (Ok(1), api.setter(root, path, fn(value)).root)))
  {
  }

  /** transform never reports more than one transformed value. */
  lemma TransformCountsAtMostOne(root: Value, api: PathApi, path: string, fn: Option<Value> -> Value)
    ensures var r := TransformOutcome(root, api, path, fn).0;
            r.Ok? ==> r.value <= 1
  {
  }

  // ---------------------------------------------------------------------------
  // updateMany
  // ---------------------------------------------------------------------------

  /** The document and the success count part-way through the loop. */
  datatype Progress = Progress(root: Value, count: nat)

  /** One iteration: an exception is swallowed, a success is counted. */
  function UpdateStep(api: PathApi, value: Value, s: Progress, path: string): Progress {
    match api.setter(s.root, path, value)
    case Threw => s
    case Applied(root', success) => Progress(root', if success then s.count + 1 else s.count)
  }

  /** The iterations over `paths`, in order. */
  function Run(api: PathApi, value: Value, s: Progress, paths: seq<string>): Progress
    decreases |paths|
  {
    if paths == [] then s else Run(api, value, UpdateStep(api, value, s, paths[0]), paths[1..])
  }

  /** What updateMany returns, and the document afterwards. */
  function UpdateManyOutcome(root: Value, api: PathApi, paths: seq<string>, value: Value): (nat, Value) {
    var p := Run(api, value, Progress(root, 0), paths);
    (p.count, p.root)
  }

  /** `set` succeeds at `path` from this document. */
  predicate Succeeds(api: PathApi, value: Value, root: Value, path: string) {
    api.setter(root, path, value).Applied? && api.setter(root, path, value).success
  }

  /** Running two lists of paths one after the other is running their concatenation. */
  lemma {:induction false} RunConcat(api: PathApi, value: Value, s: Progress, a: seq<string>, b: seq<string>)
    ensures Run(api, value, s, a + b) == Run(api, value, Run(api, value, s, a), b)
    decreases |a|
  {
    if a == [] {
      assert a + b == b;
    } else {
      assert (a + b)[1..] == a[1..] + b;
      RunConcat(api, value, UpdateStep(api, value, s, a[0]), a[1..], b);
    }
  }

  /** The count only grows, and by at most one per path. */
  lemma {:induction false} RunCountBounds(api: PathApi, value: Value, s: Progress, paths: seq<string>)
    ensures s.count <= Run(api, value, s, paths).count <= s.count + |paths|
    decreases |paths|
  {
    if paths != [] {
      RunCountBounds(api, value, UpdateStep(api, value, s, paths[0]), paths[1..]);
    }
  }

  /** updateMany returns a count between 0 and the number of paths. */
  lemma UpdateManyCountBounded(root: Value, api: PathApi, paths: seq<string>, value: Value)
    ensures UpdateManyOutcome(root, api, paths, value).0 <= |paths|
  {
    RunCountBounds(api, value, Progress(root, 0), paths);
  }

  /** Every path is counted exactly when `set` succeeds at each of them in turn. */
  lemma {:induction false} RunCountsAll(api: PathApi, value: Value, s: Progress, paths: seq<string>)
    ensures Run(api, value, s, paths).count == s.count + |paths| <==>
            forall k | 0 <= k < |paths| :: Succeeds(api, value, Run(api, value, s, paths[..k]).root, paths[k])
    decreases |paths|
  {
    if paths != [] {
      var s1 := UpdateStep(api, value, s, paths[0]);
      var rest := paths[1..];
      RunCountsAll(api, value, s1, rest);
      RunCountBounds(api, value, s1, rest);
      assert Run(api, value, s, paths[..0]) == s;
      forall k | 1 <= k <= |paths|
        ensures Run(api, value, s, paths[..k]) == Run(api, value, s1, rest[..k - 1])
      {
        assert paths[..k][1..] == rest[..k - 1];
      }
      if forall k | 0 <= k < |paths| :: Succeeds(api, value, Run(api, value, s, paths[..k]).root, paths[k]) {
        forall k | 0 <= k < |rest|
          ensures Succeeds(api, value, Run(api, value, s1, rest[..k]).root, rest[k])
        {
          assert Succeeds(api, value, Run(api, value, s, paths[..k + 1]).root, paths[k + 1]);
        }
      }
      if Run(api, value, s, paths).count == s.count + |paths| {
        forall k | 0 <= k < |paths|
          ensures Succeeds(api, value, Run(api, value, s, paths[..k]).root, paths[k])
        {
          if k > 0 {
            assert rest[k - 1] == paths[k];
          }
        }
      }
    }
  }

  /** updateMany returns `|paths|` exactly when every `set` succeeds. */
  lemma UpdateManyAllSucceed(root: Value, api: PathApi, paths: seq<string>, value: Value)
    ensures UpdateManyOutcome(root, api, paths, value).0 == |paths| <==>
            forall k | 0 <= k < |paths| ::
              Succeeds(api, value, Run(api, value, Progress(root, 0), paths[..k]).root, paths[k])
  {
    RunCountsAll(api, value, Progress(root, 0), paths);
  }

  /** A path whose `set` throws is skipped: the later paths run as if it were absent. */
  lemma ThrowingPathSkipped(root: Value, api: PathApi, paths: seq<string>, value: Value, k: nat)
    requires k < |paths|
    requires api.setter(Run(api, value, Progress(root, 0), paths[..k]).root, paths[k], value).Threw?
    ensures UpdateManyOutcome(root, api, paths, value) == UpdateManyOutcome(root, api, paths[..k] + paths[k + 1..], value)
  {
    var s0 := Progress(root, 0);
    var before := Run(api, value, s0, paths[..k]);
    assert paths == paths[..k] + ([paths[k]] + paths[k + 1..]);
    RunConcat(api, value, s0, paths[..k], [paths[k]] + paths[k + 1..]);
    RunConcat(api, value, s0, paths[..k], paths[k + 1..]);
    assert ([paths[k]] + paths[k + 1..])[1..] == paths[k + 1..];
  }

  // ---------------------------------------------------------------------------
  // merge
  // ---------------------------------------------------------------------------

  /** What merge returns and the document afterwards. */
  function MergeOutcome(root: Value, api: PathApi, path: string, updates: Entries): (Result<(), OpError>, Value) {
    match api.parsePath(path)
    case ParseFailed(e) => (Err(PathSyntax(e)), root)
    case Parsed(evaluate) =>
      var t := evaluate(root);
      var target := ValueAt(root, t);
      if target.None? || !target.value.Obj? then (Err(NotAnObject(path)), root)
      else (Ok(()), Replace(root, t, Obj(Assign(target.value.entries, updates))))
  }

  /** merge throws, and changes nothing, exactly when the path does not parse or does not lead to an object. */
  lemma MergeRejects(root: Value, api: PathApi, path: string, updates: Entries)
    ensures MergeOutcome(root, api, path, updates).0.Err? ==> MergeOutcome(root, api, path, updates).1 == root
    ensures api.parsePath(path).Parsed? ==>
            var target := ValueAt(root, api.parsePath(path).evaluate(root));
            (MergeOutcome(root, api, path, updates).0 == Err(NotAnObject(path)) <==> !(target.Some? && target.value.Obj?))
    ensures api.parsePath(path).ParseFailed? ==>
            MergeOutcome(root, api, path, updates).0 == Err(PathSyntax(api.parsePath(path).error))
  {
  }

  /**
   * After merge, every key of `updates` reads as its value there (whole, not
   * merged deeper), every other key of the target reads as before, and the
   * rest of the document is untouched.
   */
  lemma MergeOverwrites(root: Value, api: PathApi, path: string, updates: Entries, k: string, other: Location)
    requires UniqueKeys(updates)
    requires api.parsePath(path).Parsed? && api.parsePath(path).evaluate(root).InDocument?
    requires MergeOutcome(root, api, path, updates).0.Ok?
    ensures var loc := api.parsePath(path).evaluate(root).loc;
            var before := Get(root, loc).value;
            var after := Get(MergeOutcome(root, api, path, updates).1, loc);
            after.Some? && after.value.Obj? &&
            Lookup(after.value.entries, k) == (if k in KeysOf(updates) then Lookup(updates, k) else Lookup(before.entries, k))
    ensures var loc := api.parsePath(path).evaluate(root).loc;
            Diverge(loc, other) ==> Get(MergeOutcome(root, api, path, updates).1, other) == Get(root, other)
  {
    var t := api.parsePath(path).evaluate(root);
    var before := Get(root, t.loc).value;
    var merged := Assign(before.entries, updates);
    ReplaceLocal(root, t, Obj(merged), other);
    AssignLookup(before.entries, updates, k);
    LastValueUnique(updates, k);
  }

  /** Merging into an object without repeated keys yields one without repeated keys. */
  lemma MergeKeepsKeysUnique(root: Value, api: PathApi, path: string, updates: Entries)
    requires api.parsePath(path).Parsed? && api.parsePath(path).evaluate(root).InDocument?
    requires MergeOutcome(root, api, path, updates).0.Ok?
    requires UniqueKeys(Get(root, api.parsePath(path).evaluate(root).loc).value.entries)
    ensures var loc := api.parsePath(path).evaluate(root).loc;
            var after := Get(MergeOutcome(root, api, path, updates).1, loc);
            after.Some? && after.value.Obj? && UniqueKeys(after.value.entries)
  {
    var t := api.parsePath(path).evaluate(root);
    var before := Get(root, t.loc).value;
    ReplaceLocal(root, t, Obj(Assign(before.entries, updates)), []);
    AssignUnique(before.entries, updates);
  }

  // ---------------------------------------------------------------------------
  // The operations on a document
  // ---------------------------------------------------------------------------

  /** transform (src/modification/transform.ts:17-39). */
  method TransformAt(doc: Document, api: PathApi, pathExpression: string, transformFn: Option<Value> -> Value)
    returns (r: Result<nat, OpError>)
    modifies doc
    ensures (r, doc.root) == TransformOutcome(old(doc.root), api, pathExpression, transformFn)
  {
    var parseResult := api.parsePath(pathExpression);
    if parseResult.ParseFailed? {
      return Err(PathSyntax(parseResult.error));
    }
    var value := ValueAt(doc.root, parseResult.evaluate(doc.root));
    if value.Some? && value.value.List? {
      return Ok(0);
    }
    var transformed := transformFn(value);
    var outcome := api.setter(doc.root, pathExpression, transformed);
    if outcome.Threw? {
      return Err(SetThrew);
    }
    doc.root := outcome.root;
    return Ok(1);
  }

  /** updateMany (src/modification/transform.ts:49-66). */
  method UpdateMany(doc: Document, api: PathApi, paths: seq<string>, value: Value) returns (count: nat)
    modifies doc
    ensures (count, doc.root) == UpdateManyOutcome(old(doc.root), api, paths, value)
  {
    count := 0;
    var i := 0;
    while i < |paths|
      invariant i <= |paths|
      invariant Progress(doc.root, count) == Run(api, value, Progress(old(doc.root), 0), paths[..i])
    {
      RunConcat(api, value, Progress(old(doc.root), 0), paths[..i], [paths[i]]);
      assert paths[..i + 1] == paths[..i] + [paths[i]];
      var result := api.setter(doc.root, paths[i], value);
      if result.Applied? {
        doc.root := result.root;
        if result.success {
          count := count + 1;
        }
      }
      i := i + 1;
    }
    assert paths[..i] == paths;
  }

  /** merge (src/modification/transform.ts:75-92). */
  method Merge(doc: Document, api: PathApi, pathExpression: string, updates: Entries) returns (r: Result<(), OpError>)
    modifies doc
    ensures (r, doc.root) == MergeOutcome(old(doc.root), api, pathExpression, updates)
  {
    var parseResult := api.parsePath(pathExpression);
    if parseResult.ParseFailed? {
      return Err(PathSyntax(parseResult.error));
    }
    var t := parseResult.evaluate(doc.root);
    var target := ValueAt(doc.root, t);
    if target.None? || !target.value.Obj? {
      return Err(NotAnObject(pathExpression));
    }
    doc.root := Replace(doc.root, t, Obj(Assign(target.value.entries, updates)));
    return Ok(());
  }
}
