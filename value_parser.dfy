/**
 * Decoding of a single-line block (src/parser/value-parser.ts): the text after
 * the colon of `key{cols}: ...` or `key[N]{cols}: ...`. An array header lays a
 * flat list of fields out row by row; an object header is read by a scanner
 * that looks for `key:` markers. Splitting the line into fields and parsing a
 * primitive are collaborators whose bodies are not part of this model; they
 * are passed in as functions.
 */
module ValueParser {
  import opened Wrappers
  import opened Values
  import opened Strings

  /** A column of a block header; only its name matters here. */
  datatype Column = Column(name: string)

  /** A parsed block header: `[N]` gives arrayLength, `{a,b}` the columns. */
  datatype Header = Header(isArray: bool, arrayLength: Option<nat>, columns: seq<Column>)

  /** The part of the parse context this decoder reads itself. */
  datatype ParseContext = ParseContext(delimiter: Delimiter)

  /** parseTONLLine and parsePrimitiveValue, which are not part of this model. */
  datatype LineCodec = LineCodec(
    parseLine: (string, Delimiter) -> seq<string>,
    parsePrimitive: (string, ParseContext) -> Value)

  datatype ParseError = NullHeader

  // ---------------------------------------------------------------------------
  // Array branch: row-major layout
  // ---------------------------------------------------------------------------

  /**
   * Whether the array loop ends. Without a declared length and without
   * columns, the item count is `fields / 0`, which is Infinity for a
   * non-empty field list (and NaN, hence no items, for an empty one).
   */
  predicate ArrayLoopEnds(h: Header, fieldCount: nat) {
    h.arrayLength.Some? || |h.columns| > 0 || fieldCount == 0
  }

  /** The number of rows: the declared length, or as many whole rows as the fields fill. */
  function NumItems(h: Header, fieldCount: nat): nat
    requires ArrayLoopEnds(h, fieldCount)
  {
    if h.arrayLength.Some? then h.arrayLength.value
    else if |h.columns| == 0 then 0
    else fieldCount / |h.columns|
  }

  /** Row `i` after its first `j` columns have been assigned. */
  function RowUpTo(columns: seq<Column>, fields: seq<string>, i: nat, j: nat,
                   codec: LineCodec, ctx: ParseContext): Entries
    requires j <= |columns|
  {
    if j == 0 then []
    else
      var row := RowUpTo(columns, fields, i, j - 1, codec, ctx);
      var index := i * |columns| + (j - 1);
      if index < |fields| then Put(row, columns[j - 1].name, codec.parsePrimitive(fields[index], ctx))
      else row
  }

  /** Row `i` of the block. */
  function Row(columns: seq<Column>, fields: seq<string>, i: nat, codec: LineCodec, ctx: ParseContext): Entries {
    RowUpTo(columns, fields, i, |columns|, codec, ctx)
  }

  /** The first `n` rows of the block, each an object. */
  function Rows(columns: seq<Column>, fields: seq<string>, n: nat, codec: LineCodec, ctx: ParseContext): (r: seq<Value>)
    ensures |r| == n
    ensures forall i :: 0 <= i < n ==> r[i] == Obj(Row(columns, fields, i, codec, ctx))
  {
    seq(n, i requires 0 <= i => Obj(Row(columns, fields, i, codec, ctx)))
  }

  // ---------------------------------------------------------------------------
  // Object branch: the `key:` scanner
  // ---------------------------------------------------------------------------

  /** JavaScript's `\s` class, which is also the set `trim` removes. */
  predicate IsSpace(c: char) {
    || c == '\t' || c == '\n' || c == '\U{000B}' || c == '\U{000C}' || c == '\r' || c == ' '
    || c == '\U{00A0}' || c == '\U{1680}' || ('\U{2000}' <= c <= '\U{200A}')
    || c == '\U{2028}' || c == '\U{2029}' || c == '\U{202F}' || c == '\U{205F}'
    || c == '\U{3000}' || c == '\U{FEFF}'
  }

  /** `[a-zA-Z0-9_]` */
  predicate IsWordChar(c: char) {
    ('a' <= c <= 'z') || ('A' <= c <= 'Z') || ('0' <= c <= '9') || c == '_'
  }

  /** The index where the run of whitespace that starts at `i` ends. */
  function SpaceEnd(s: string, i: nat): (j: nat)
    requires i <= |s|
    ensures i <= j <= |s|
    decreases |s| - i
  {
    if i < |s| && IsSpace(s[i]) then SpaceEnd(s, i + 1) else i
  }

  /** The index where the run of word characters that starts at `i` ends. */
  function WordEnd(s: string, i: nat): (j: nat)
    requires i <= |s|
    ensures i <= j <= |s|
    decreases |s| - i
  {
    if i < |s| && IsWordChar(s[i]) then WordEnd(s, i + 1) else i
  }

  /** `s.trimStart()`: the whitespace run at the front removed. */
  function TrimStart(s: string): (r: string)
    ensures |r| <= |s|
  {
    s[SpaceEnd(s, 0)..]
  }

  /** `s.trimEnd()`: the whitespace run at the back removed. */
  function TrimEnd(s: string): (r: string)
    ensures |r| <= |s|
  {
    if |s| > 0 && IsSpace(s[|s| - 1]) then TrimEnd(s[..|s| - 1]) else s
  }

  /** `s.trim()` */
  function Trim(s: string): (r: string)
    ensures |r| <= |s|
  {
    TrimEnd(TrimStart(s))
  }

  /** The index of the first `c` in `s` at or after `from`. */
  function IndexOfFrom(s: string, c: char, from: nat): (r: Option<nat>)
    requires from <= |s|
    ensures r.Some? ==> from <= r.value < |s|
    decreases |s| - from
  {
    if from == |s| then None
    else if s[from] == c then Some(from)
    else IndexOfFrom(s, c, from + 1)
  }

  /**
   * The regular expression `^([^:]+):\s*` applied to the text from `pos` on:
   * the key text before the next colon, and the index just past the match
   * (past the colon and the whitespace after it).
   */
  function KeyMatch(v: string, pos: nat): (r: Option<(string, nat)>)
    requires pos <= |v|
    ensures r.Some? ==> pos + |r.value.0| < r.value.1 <= |v|
  {
    match IndexOfFrom(v, ':', pos)
    case None => None
    case Some(c) => if c == pos then None else Some((v[pos..c], SpaceEnd(v, c + 1)))
  }

  /**
   * The regular expression `\s+[a-zA-Z0-9_]+\s*:` matches at index `m` of `s`.
   * Whitespace, word characters and `:` are disjoint classes, so each run of
   * the match is the whole run that starts where it does, and no backtracking
   * can change that. The match only looks forward, so matching in the text
   * from some position on is matching in `s` at the same absolute index.
   */
  predicate KeyStartsAt(s: string, m: nat) {
    m < |s| && IsSpace(s[m]) &&
    var a := SpaceEnd(s, m);
    var b := WordEnd(s, a);
    var c := SpaceEnd(s, b);
    b > a && c < |s| && s[c] == ':'
  }

  /** The leftmost index at or after `from` where a next `key:` marker starts. */
  function NextKeyFrom(s: string, from: nat): (r: Option<nat>)
    requires from <= |s|
    ensures r.Some? ==> from <= r.value < |s|
    decreases |s| - from
  {
    if from == |s| then None
    else if KeyStartsAt(s, from) then Some(from)
    else NextKeyFrom(s, from + 1)
  }

  /** Where the value that starts at `start` ends: at the next `key:` marker or at the end. */
  function ValueEnd(v: string, start: nat): (end: nat)
    requires start <= |v|
    ensures start <= end <= |v|
  {
    match NextKeyFrom(v, start)
    case Some(m) => m
    case None => |v|
  }

  /**
   * The key/value pairs the scanner reads from position `pos` on, in order:
   * each key is the trimmed text before a colon, each value the parsed,
   * trimmed text up to the next `key:` marker or the end.
   */
  function Pairs(v: string, pos: nat, codec: LineCodec, ctx: ParseContext): Entries
    requires pos <= |v|
    decreases |v| - pos
  {
    if pos == |v| then []
    else match KeyMatch(v, pos)
      case None => []
      case Some(m) =>
        var end := ValueEnd(v, m.1);
        [(Trim(m.0), codec.parsePrimitive(Trim(v[m.1..end]), ctx))] + Pairs(v, end, codec, ctx)
  }

  /** The object the scanner builds: every pair assigned in order. */
  function InlineObject(v: string, codec: LineCodec, ctx: ParseContext): Entries {
    Assign([], Pairs(v, 0, codec, ctx))
  }

  // ---------------------------------------------------------------------------
  // parseSingleLineObject
  // ---------------------------------------------------------------------------

  /** What parseSingleLineObject returns (or throws) for a header and the text after it. */
  function SingleLineObject(header: Option<Header>, valuePart: string, ctx: ParseContext, codec: LineCodec)
    : (r: Result<Value, ParseError>)
    requires header.Some? && header.value.isArray ==>
      ArrayLoopEnds(header.value, |codec.parseLine(valuePart, ctx.delimiter)|)
    ensures header.None? <==> r == Err(NullHeader)
    ensures header.Some? && header.value.isArray ==> r.Ok? && r.value.List?
    ensures header.Some? && !header.value.isArray ==> r.Ok? && r.value.Obj?
  {
    if header.None? then Err(NullHeader)
    else if header.value.isArray then
      var h := header.value;
      var fields := codec.parseLine(valuePart, ctx.delimiter);
      Ok(List(Rows(h.columns, fields, NumItems(h, |fields|), codec, ctx)))
    else Ok(Obj(InlineObject(valuePart, codec, ctx)))
  }

  /** parseSingleLineObject (src/parser/value-parser.ts:17-75). */
  method ParseSingleLineObject(header: Option<Header>, valuePart: string, ctx: ParseContext, codec: LineCodec)
    returns (r: Result<Value, ParseError>)
    requires header.Some? && header.value.isArray ==>
      ArrayLoopEnds(header.value, |codec.parseLine(valuePart, ctx.delimiter)|)
    ensures r == SingleLineObject(header, valuePart, ctx, codec)
  {
    if header.None? {
      return Err(NullHeader);
    }
    if header.value.isArray {
      var fields := codec.parseLine(valuePart, ctx.delimiter);
      var items := ParseRows(header.value, fields, ctx, codec);
      return Ok(List(items));
    } else {
      var entries := ScanInlineObject(valuePart, ctx, codec);
      return Ok(Obj(entries));
    }
  }

  /** The array branch (src/parser/value-parser.ts:22-43): rows filled column by column. */
  method ParseRows(h: Header, fields: seq<string>, ctx: ParseContext, codec: LineCodec)
    returns (result: seq<Value>)
    requires ArrayLoopEnds(h, |fields|)
    ensures result == Rows(h.columns, fields, NumItems(h, |fields|), codec, ctx)
  {
    var numItems := if h.arrayLength.Some? then h.arrayLength.value
                    else if |h.columns| == 0 then 0
                    else |fields| / |h.columns|;
    result := [];
    var i := 0;
    while i < numItems
      invariant i <= numItems
      invariant result == Rows(h.columns, fields, i, codec, ctx)
    {
      var item: Entries := [];
      var j := 0;
      while j < |h.columns|
        invariant j <= |h.columns|
        invariant item == RowUpTo(h.columns, fields, i, j, codec, ctx)
      {
        var fieldIndex := i * |h.columns| + j;
        if fieldIndex < |fields| {
          item := Put(item, h.columns[j].name, codec.parsePrimitive(fields[fieldIndex], ctx));
        }
        j := j + 1;
      }
      result := result + [Obj(item)];
      i := i + 1;
    }
  }

  /** The object branch (src/parser/value-parser.ts:44-73): the cursor-driven `key:` scanner. */
  method ScanInlineObject(valuePart: string, ctx: ParseContext, codec: LineCodec) returns (result: Entries)
    ensures result == InlineObject(valuePart, codec, ctx)
  {
    result := [];
    var pos := 0;
    while pos < |valuePart|
      invariant pos <= |valuePart|
      invariant Assign(result, Pairs(valuePart, pos, codec, ctx)) == InlineObject(valuePart, codec, ctx)
      decreases |valuePart| - pos
    {
      var keyMatch := KeyMatch(valuePart, pos);
      if keyMatch.None? {
        break;
      }
      var key := Trim(keyMatch.value.0);
      pos := keyMatch.value.1;
      var valueEnd := |valuePart|;
      var nextKey := NextKeyFrom(valuePart, pos);
      if nextKey.Some? {
        valueEnd := nextKey.value;
      }
      var value := codec.parsePrimitive(Trim(valuePart[pos..valueEnd]), ctx);
      AssignCons(result, (key, value), Pairs(valuePart, valueEnd, codec, ctx));
      result := Put(result, key, value);
      pos := valueEnd;
    }
  }

  lemma AssignCons(acc: Entries, head: (string, Value), rest: Entries)
    ensures Assign(acc, [head] + rest) == Assign(Put(acc, head.0, head.1), rest)
  {
    assert ([head] + rest)[1..] == rest;
  }

  // ---------------------------------------------------------------------------
  // Properties of the scanner's building blocks
  // ---------------------------------------------------------------------------

  lemma {:induction false} SpaceEndSpec(s: string, i: nat)
    requires i <= |s|
    ensures forall k :: i <= k < SpaceEnd(s, i) ==> IsSpace(s[k])
    ensures SpaceEnd(s, i) < |s| ==> !IsSpace(s[SpaceEnd(s, i)])
    decreases |s| - i
  {
    if i < |s| && IsSpace(s[i]) {
      SpaceEndSpec(s, i + 1);
    }
  }

  lemma {:induction false} TrimEndSpec(s: string)
    ensures TrimEnd(s) == s[..|TrimEnd(s)|]
    ensures TrimEnd(s) == [] || !IsSpace(TrimEnd(s)[|TrimEnd(s)| - 1])
    ensures forall k :: |TrimEnd(s)| <= k < |s| ==> IsSpace(s[k])
  {
    if |s| > 0 && IsSpace(s[|s| - 1]) {
      TrimEndSpec(s[..|s| - 1]);
    }
  }

  /** `r` occurs in `s` at index `a`. */
  predicate SliceAt(s: string, r: string, a: nat) {
    a + |r| <= |s| && r == s[a..a + |r|]
  }

  /** `trim` returns a slice of its input that neither starts nor ends with whitespace. */
  lemma TrimSpec(s: string)
    ensures exists a: nat :: SliceAt(s, Trim(s), a)
    ensures Trim(s) == [] || (!IsSpace(Trim(s)[0]) && !IsSpace(Trim(s)[|Trim(s)| - 1]))
  {
    SpaceEndSpec(s, 0);
    TrimEndSpec(TrimStart(s));
    assert SliceAt(s, Trim(s), SpaceEnd(s, 0));
  }

  /** `indexOf` finds the first occurrence at or after `from`, and none exactly when there is none. */
  lemma {:induction false} IndexOfFromSpec(s: string, c: char, from: nat)
    requires from <= |s|
    ensures IndexOfFrom(s, c, from).None? <==> c !in s[from..]
    ensures IndexOfFrom(s, c, from).Some? ==>
      s[IndexOfFrom(s, c, from).value] == c &&
      forall k :: from <= k < IndexOfFrom(s, c, from).value ==> s[k] != c
    decreases |s| - from
  {
    if from < |s| && s[from] != c {
      IndexOfFromSpec(s, c, from + 1);
      assert s[from..] == [s[from]] + s[from + 1..];
    }
  }

  /**
   * The key pattern matches exactly when the rest of the text holds a colon
   * that is not its first character; the key is the colon-free text before
   * the first colon.
   */
  lemma KeyMatchSpec(v: string, pos: nat)
    requires pos < |v|
    ensures KeyMatch(v, pos).None? <==> ':' !in v[pos..] || v[pos] == ':'
    ensures KeyMatch(v, pos).Some? ==>
      var key := KeyMatch(v, pos).value.0;
      0 < |key| && key == v[pos..pos + |key|] && v[pos + |key|] == ':' && ':' !in key
  {
    IndexOfFromSpec(v, ':', pos);
    var r := IndexOfFrom(v, ':', pos);
    if r.Some? && r.value > pos {
      var key := v[pos..r.value];
      forall x | 0 <= x < |key| ensures key[x] != ':' {
        assert key[x] == v[pos + x];
      }
    }
  }

  // ---------------------------------------------------------------------------
  // Properties of parseSingleLineObject
  // ---------------------------------------------------------------------------

  /** Column names are pairwise distinct. */
  predicate DistinctNames(columns: seq<Column>) {
    forall j, j' :: 0 <= j < j' < |columns| ==> columns[j].name != columns[j'].name
  }

  /** Every key of a row is the name of a column. */
  lemma {:induction false} RowKeysAreColumns(columns: seq<Column>, fields: seq<string>, i: nat, n: nat,
                                             codec: LineCodec, ctx: ParseContext, k: string)
    requires n <= |columns|
    requires k in KeysOf(RowUpTo(columns, fields, i, n, codec, ctx))
    ensures exists j :: 0 <= j < n && columns[j].name == k
  {
    if n > 0 {
      var row := RowUpTo(columns, fields, i, n - 1, codec, ctx);
      var index := i * |columns| + (n - 1);
      if index < |fields| {
        var value := codec.parsePrimitive(fields[index], ctx);
        PutKeys(row, columns[n - 1].name, value);
        if k != columns[n - 1].name {
          assert k in KeysOf(row);
          RowKeysAreColumns(columns, fields, i, n - 1, codec, ctx, k);
        }
      } else {
        RowKeysAreColumns(columns, fields, i, n - 1, codec, ctx, k);
      }
    }
  }

  /**
   * Row-major layout: after the first `n` columns of row `i`, column `j < n`
   * holds the parsed field `i * |columns| + j` when that field exists, and is
   * absent (not null) when the fields have run out.
   */
  lemma {:induction false} RowUpToLookup(columns: seq<Column>, fields: seq<string>, i: nat, n: nat, j: nat,
                                         codec: LineCodec, ctx: ParseContext)
    requires DistinctNames(columns) && j < n <= |columns|
    ensures var index := i * |columns| + j;
            Lookup(RowUpTo(columns, fields, i, n, codec, ctx), columns[j].name) ==
            if index < |fields| then Some(codec.parsePrimitive(fields[index], ctx)) else None
  {
    var row := RowUpTo(columns, fields, i, n - 1, codec, ctx);
    var last := i * |columns| + (n - 1);
    if j == n - 1 {
      if last < |fields| {
        PutLookup(row, columns[j].name, codec.parsePrimitive(fields[last], ctx), columns[j].name);
      } else if columns[j].name in KeysOf(row) {
        RowKeysAreColumns(columns, fields, i, n - 1, codec, ctx, columns[j].name);
      }
    } else {
      RowUpToLookup(columns, fields, i, n - 1, j, codec, ctx);
      if last < |fields| {
        PutLookup(row, columns[n - 1].name, codec.parsePrimitive(fields[last], ctx), columns[j].name);
      }
    }
  }

  /**
   * The array branch lays the fields out row by row: item `i`, column `j` is
   * the parsed field `i * |columns| + j`, or absent when there is no such field.
   */
  lemma RowMajor(h: Header, valuePart: string, ctx: ParseContext, codec: LineCodec, i: nat, j: nat)
    requires h.isArray && DistinctNames(h.columns)
    requires ArrayLoopEnds(h, |codec.parseLine(valuePart, ctx.delimiter)|)
    requires j < |h.columns|
    ensures var fields := codec.parseLine(valuePart, ctx.delimiter);
            var r := SingleLineObject(Some(h), valuePart, ctx, codec);
            var index := i * |h.columns| + j;
            i < |r.value.items| ==>
              r.value.items[i].Obj? &&
              Lookup(r.value.items[i].entries, h.columns[j].name) ==
              if index < |fields| then Some(codec.parsePrimitive(fields[index], ctx)) else None
  {
    var fields := codec.parseLine(valuePart, ctx.delimiter);
    RowUpToLookup(h.columns, fields, i, |h.columns|, j, codec, ctx);
  }

  /** A declared length, 0 included, fixes the number of items whatever the fields are. */
  lemma DeclaredLengthWins(h: Header, valuePart: string, ctx: ParseContext, codec: LineCodec)
    requires h.isArray && h.arrayLength.Some?
    ensures SingleLineObject(Some(h), valuePart, ctx, codec).value.List?
    ensures |SingleLineObject(Some(h), valuePart, ctx, codec).value.items| == h.arrayLength.value
  {
  }

  /** Without a declared length, there are as many items as whole rows of fields. */
  lemma InferredLength(h: Header, valuePart: string, ctx: ParseContext, codec: LineCodec)
    requires h.isArray && h.arrayLength.None? && |h.columns| > 0
    ensures |SingleLineObject(Some(h), valuePart, ctx, codec).value.items| ==
            |codec.parseLine(valuePart, ctx.delimiter)| / |h.columns|
  {
  }

  /** A row that starts at or past the last field is still produced, as an empty object. */
  lemma {:induction false} RowPastFieldsEmpty(columns: seq<Column>, fields: seq<string>, i: nat, n: nat,
                                              codec: LineCodec, ctx: ParseContext)
    requires n <= |columns| && i * |columns| >= |fields|
    ensures RowUpTo(columns, fields, i, n, codec, ctx) == []
  {
    if n > 0 {
      RowPastFieldsEmpty(columns, fields, i, n - 1, codec, ctx);
    }
  }

  lemma {:induction false} RowEndWithin(i: nat, n: nat, c: nat, j: nat)
    requires i < n && j < c
    ensures i * c + j < n * c
    decreases n
  {
    assert n * c == (n - 1) * c + c;
    if n > i + 1 {
      RowEndWithin(i, n - 1, c, j);
    }
  }

  /** Fields past the last row are ignored. */
  lemma {:induction false} ExtraFieldsIgnoredInRow(columns: seq<Column>, fields: seq<string>, extra: seq<string>,
                                                   numItems: nat, i: nat, n: nat, codec: LineCodec, ctx: ParseContext)
    requires n <= |columns| && i < numItems && numItems * |columns| <= |fields|
    ensures RowUpTo(columns, fields + extra, i, n, codec, ctx) == RowUpTo(columns, fields, i, n, codec, ctx)
  {
    if n > 0 {
      ExtraFieldsIgnoredInRow(columns, fields, extra, numItems, i, n - 1, codec, ctx);
      RowEndWithin(i, numItems, |columns|, n - 1);
      assert (fields + extra)[i * |columns| + (n - 1)] == fields[i * |columns| + (n - 1)];
    }
  }

  /** Fields past `numItems * |columns|` do not change the rows. */
  lemma ExtraFieldsIgnored(columns: seq<Column>, fields: seq<string>, extra: seq<string>,
                           numItems: nat, codec: LineCodec, ctx: ParseContext)
    requires numItems * |columns| <= |fields|
    ensures Rows(columns, fields + extra, numItems, codec, ctx) == Rows(columns, fields, numItems, codec, ctx)
  {
    forall i | 0 <= i < numItems
      ensures Row(columns, fields + extra, i, codec, ctx) == Row(columns, fields, i, codec, ctx)
    {
      ExtraFieldsIgnoredInRow(columns, fields, extra, numItems, i, |columns|, codec, ctx);
    }
  }

  /** Text without a colon yields no pairs: the scanner stops at once. */
  lemma NoColonNoPairs(v: string, pos: nat, codec: LineCodec, ctx: ParseContext)
    requires pos <= |v| && ':' !in v[pos..]
    ensures Pairs(v, pos, codec, ctx) == []
  {
    if pos < |v| {
      KeyMatchSpec(v, pos);
    }
  }

  /** An object line without a colon decodes to the empty object. */
  lemma NoColonEmptyObject(v: string, ctx: ParseContext, codec: LineCodec, h: Header)
    requires !h.isArray && ':' !in v
    ensures SingleLineObject(Some(h), v, ctx, codec) == Ok(Obj([]))
  {
    assert v[0..] == v;
    NoColonNoPairs(v, 0, codec, ctx);
  }

  /** One step of the scanner: the pair at `pos`, then the pairs after its value. */
  lemma {:induction false} PairsStep(v: string, pos: nat, codec: LineCodec, ctx: ParseContext)
    requires pos < |v| && KeyMatch(v, pos).Some?
    ensures var m := KeyMatch(v, pos).value;
            var end := ValueEnd(v, m.1);
            Pairs(v, pos, codec, ctx) ==
            [(Trim(m.0), codec.parsePrimitive(Trim(v[m.1..end]), ctx))] + Pairs(v, end, codec, ctx)
  {
  }

  lemma IndexCons(head: (string, Value), rest: Entries, k: nat)
    requires k < 1 + |rest|
    ensures ([head] + rest)[k] == if k == 0 then head else rest[k - 1]
  {
  }

  /** A key without a colon and without surrounding whitespace. */
  predicate CleanKey(key: string) {
    ':' !in key && (key == [] || (!IsSpace(key[0]) && !IsSpace(key[|key| - 1])))
  }

  /** The trimmed key text is colon-free and carries no surrounding whitespace. */
  lemma TrimmedKeyClean(v: string, pos: nat)
    requires pos < |v| && KeyMatch(v, pos).Some?
    ensures CleanKey(Trim(KeyMatch(v, pos).value.0))
  {
    var raw := KeyMatch(v, pos).value.0;
    KeyMatchSpec(v, pos);
    TrimSpec(raw);
    var a: nat :| SliceAt(raw, Trim(raw), a);
    forall x | 0 <= x < |Trim(raw)| ensures Trim(raw)[x] == raw[a + x] { }
  }

  /** Every key the scanner reads is colon-free and carries no surrounding whitespace. */
  lemma {:induction false} PairKeysClean(v: string, pos: nat, codec: LineCodec, ctx: ParseContext, k: nat)
    requires pos <= |v| && k < |Pairs(v, pos, codec, ctx)|
    ensures CleanKey(Pairs(v, pos, codec, ctx)[k].0)
    decreases |v| - pos
  {
    var m := KeyMatch(v, pos).value;
    var end := ValueEnd(v, m.1);
    var head := (Trim(m.0), codec.parsePrimitive(Trim(v[m.1..end]), ctx));
    PairsStep(v, pos, codec, ctx);
    IndexCons(head, Pairs(v, end, codec, ctx), k);
    if k == 0 {
      TrimmedKeyClean(v, pos);
    } else {
      PairKeysClean(v, end, codec, ctx, k - 1);
    }
  }

  /** The scanner's object never holds a key twice. */
  lemma InlineKeysUnique(h: Header, v: string, ctx: ParseContext, codec: LineCodec)
    requires !h.isArray
    ensures UniqueKeys(SingleLineObject(Some(h), v, ctx, codec).value.entries)
  {
    AssignUnique([], Pairs(v, 0, codec, ctx));
  }

  /** A repeated key overwrites the earlier one: each key reads as its last pair's value. */
  lemma InlineLastWins(h: Header, v: string, ctx: ParseContext, codec: LineCodec, k: string)
    requires !h.isArray
    ensures Lookup(SingleLineObject(Some(h), v, ctx, codec).value.entries, k) ==
            LastValue(Pairs(v, 0, codec, ctx), k)
  {
    AssignLookup([], Pairs(v, 0, codec, ctx), k);
  }

  const ExampleLine := "a: x y b: z"

  lemma ExampleFirstKey()
    ensures KeyMatch(ExampleLine, 0) == Some(("a", 3)) && ValueEnd(ExampleLine, 3) == 6
  {
    var v := ExampleLine;
    assert IndexOfFrom(v, ':', 0) == Some(1) && SpaceEnd(v, 2) == 3 && v[0..1] == "a";
    assert !KeyStartsAt(v, 3) && !KeyStartsAt(v, 4) && !KeyStartsAt(v, 5) && KeyStartsAt(v, 6);
  }

  lemma ExampleSecondKey()
    ensures KeyMatch(ExampleLine, 6) == Some((" b", 10)) && ValueEnd(ExampleLine, 10) == 11
  {
    var v := ExampleLine;
    assert IndexOfFrom(v, ':', 7) == Some(8);
    assert IndexOfFrom(v, ':', 6) == Some(8) && SpaceEnd(v, 9) == 10 && v[6..8] == " b";
    assert !KeyStartsAt(v, 10);
  }

  lemma ExampleTrims()
    ensures Trim(ExampleLine[3..6]) == "x y" && Trim(" b") == "b" && Trim("a") == "a"
    ensures Trim(ExampleLine[10..11]) == "z"
  {
    assert ExampleLine[3..6] == "x y" && ExampleLine[10..11] == "z";
  }

  /** A value runs up to the next `key:` marker, spaces inside it included. */
  lemma ValueRunsToNextKey(codec: LineCodec, ctx: ParseContext)
    ensures Pairs(ExampleLine, 0, codec, ctx) ==
            [("a", codec.parsePrimitive("x y", ctx)), ("b", codec.parsePrimitive("z", ctx))]
  {
    ExampleFirstKey();
    ExampleSecondKey();
    ExampleTrims();
    PairsStep(ExampleLine, 0, codec, ctx);
    PairsStep(ExampleLine, 6, codec, ctx);
  }
}
