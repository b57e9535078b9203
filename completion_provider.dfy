/**
 * The completion request pipeline: from a 0-based line and column to the
 * strategy that completes at the cursor, over a pruned buffer made
 * parseable by a synthetic statement terminator.
 *
 * The parser, the line map, the method-body pruner, the compiler with its
 * syntax-path search, and the strategies themselves are outside this model;
 * each appears as a function-valued parameter standing for whatever value
 * that collaborator computes: the line map's offset, the pruned text, the
 * kind of the leaf at the cursor of the compiled text, and the strategy's
 * result for the compiled text and the request.
 */
module CompletionProvider {
  import opened Characters
  import opened Scanning
  import opened CharBuffers
  import opened Dispatch

  // ---------------------------------------------------------------------
  // Positions

  const INT32_MIN: int := -0x8000_0000
  const INT32_MAX: int := 0x7fff_ffff

  newtype int32 = x: int | -0x8000_0000 <= x < 0x8000_0000

  /** Java's `x++` on an `int`: one more, wrapping from the largest value
      to the smallest. */
  function Increment(x: int32): (r: int32)
    ensures x as int < INT32_MAX ==> r as int == x as int + 1
    ensures x as int == INT32_MAX ==> r as int == INT32_MIN
  {
    if x == 0x7fff_ffff then -0x8000_0000 else x + 1
  }

  /** Java's `x--` on an `int`, wrapping from the smallest value to the largest. */
  function Decrement(x: int32): (r: int32)
    ensures x as int > INT32_MIN ==> r as int == x as int - 1
  {
    if x == -0x8000_0000 then 0x7fff_ffff else x - 1
  }

  datatype Position = Position(line: int32, column: int32)

  /** The caller's 0-based position as the 1-based one the compiler's line
      map expects. */
  function OneBased(p: Position): (q: Position)
    ensures 0 <= p.line as int < INT32_MAX ==> 1 <= q.line as int && q.line as int - 1 == p.line as int
    ensures 0 <= p.column as int < INT32_MAX ==> 1 <= q.column as int && q.column as int - 1 == p.column as int
  {
    Position(Increment(p.line), Increment(p.column))
  }

  /** Converting to 1-based loses nothing: every position comes back. */
  lemma OneBasedRoundTrip(p: Position)
    ensures var q := OneBased(p); Position(Decrement(q.line), Decrement(q.column)) == p
  {
  }

  // ---------------------------------------------------------------------
  // Results

  datatype Option<T> = None | Some(value: T)

  /** A completion result: the items in presentation order, and whether the
      list was cut short. */
  datatype CompletionResult<Item> = CompletionResult(items: seq<Item>, incomplete: bool)

  /** `CompletionResult.EMPTY`: no items, not incomplete. */
  function EmptyResult<Item>(): (r: CompletionResult<Item>)
    ensures r.items == [] && !r.incomplete
  {
    CompletionResult([], false)
  }

  /** A missing result (`null`) from the strategy is replaced by the empty
      result; any present result is passed on unchanged. */
  function WithEmptyFallback<Item>(r: Option<CompletionResult<Item>>): (res: CompletionResult<Item>)
    ensures r.Some? ==> res == r.value
    ensures r.None? ==> res.items == [] && !res.incomplete
  {
    match r
    case Some(v) => v
    case None => EmptyResult()
  }

  // ---------------------------------------------------------------------
  // Which files are completed

  /** `File.getName`: the last component of a path whose components are
      separated by `'/'` (the whole path when it has no separator). */
  function FileName(path: seq<char>): (name: seq<char>)
    ensures |name| <= |path| && name == path[|path| - |name|..]
    ensures forall k :: 0 <= k < |name| ==> name[k] != '/'
    ensures |name| == |path| || path[|path| - |name| - 1] == '/'
  {
    if path == [] || path[|path| - 1] == '/' then []
    else FileName(path[..|path| - 1]) + [path[|path| - 1]]
  }

  /** `String.endsWith`, comparing from the last character backwards. */
  function EndsWith(s: seq<char>, suffix: seq<char>): (b: bool)
    ensures b <==> |suffix| <= |s| && s[|s| - |suffix|..] == suffix
  {
    if suffix == [] then true
    else if s == [] then false
    else
      var init, suffixInit := s[..|s| - 1], suffix[..|suffix| - 1];
      assert |suffix| <= |s| ==> s[|s| - |suffix|..] == init[|init| - |suffixInit|..] + [s[|s| - 1]];
      assert suffix == suffixInit + [suffix[|suffix| - 1]];
      s[|s| - 1] == suffix[|suffix| - 1] && EndsWith(init, suffixInit)
  }

  /** `canComplete`: the general provider check (`baseAccepts`) holds and the
      file's name ends in `.java`. */
  function CanComplete(path: seq<char>, baseAccepts: bool): (b: bool)
    ensures b <==> (baseAccepts &&
      var name := FileName(path);
      |name| >= 5 && name[|name| - 5..] == ".java")
  {
    baseAccepts && EndsWith(FileName(path), ".java")
  }

  /** The name of a file is what follows the last separator. */
  lemma {:induction false} FileNameAfterSeparator(dir: seq<char>, name: seq<char>)
    requires forall k :: 0 <= k < |name| ==> name[k] != '/'
    ensures FileName(dir + ['/'] + name) == name
    decreases |name|
  {
    if name == [] {
      assert (dir + ['/'] + name)[|dir|] == '/';
    } else {
      var init := name[..|name| - 1];
      assert dir + ['/'] + name == (dir + ['/'] + init) + [name[|name| - 1]];
      FileNameAfterSeparator(dir, init);
    }
  }

  /** A `.java` file in any directory is completed whenever the general
      check allows it. */
  lemma JavaSourcesAreCompleted(dir: seq<char>, stem: seq<char>)
    requires forall k :: 0 <= k < |stem| ==> stem[k] != '/'
    ensures CanComplete(dir + "/" + stem + ".java", true)
  {
    var name := stem + ".java";
    assert forall k :: 0 <= k < |name| ==> name[k] != '/';
    FileNameAfterSeparator(dir, name);
    assert dir + "/" + stem + ".java" == dir + ['/'] + name;
    assert name[|name| - 5..] == ".java";
  }

  /** A file whose name does not end in `.java` is never completed. */
  lemma OtherFilesAreNotCompleted(dir: seq<char>, name: seq<char>, baseAccepts: bool)
    requires forall k :: 0 <= k < |name| ==> name[k] != '/'
    requires !EndsWith(name, ".java")
    ensures !CanComplete(dir + "/" + name, baseAccepts)
  {
    FileNameAfterSeparator(dir, name);
    assert dir + "/" + name == dir + ['/'] + name;
  }

  // ---------------------------------------------------------------------
  // Dispatch to a strategy

  /** The values `compileAndComplete` computes from the buffer for the
      chosen strategy: which strategy it is, the cursor, the identifier
      typed so far, whether a `'('` follows it, and the qualified import
      path (for the import strategy only). The strategy is also handed the
      compiled buffer, which `strategy` receives beside this request. */
  datatype StrategyRequest = StrategyRequest(
    strategy: Strategy,
    cursor: nat,
    partial: seq<char>,
    endsWithParen: bool,
    importPath: Option<seq<char>>)

  /** The request `compileAndComplete` hands over for a buffer, a cursor and
      the kind of the leaf at the cursor. */
  function RequestFor(contents: seq<char>, cursor: nat, leaf: TreeKind): (req: StrategyRequest)
    requires cursor <= |contents|
    ensures req.strategy == SelectStrategy(leaf) && req.cursor == cursor
    ensures req.importPath.Some? <==> req.strategy == ImportCompletion
    ensures forall k :: 0 <= k < |req.partial| ==> IsIdentPart(req.partial[k])
  {
    var strategy := SelectStrategy(leaf);
    StrategyRequest(
      strategy,
      cursor,
      PartialIdentifierAt(contents, cursor),
      OpensParen(contents, cursor),
      if strategy == ImportCompletion then Some(QualifiedPartialIdentifierAt(contents, cursor)) else None)
  }

  /** The import strategy sees the whole dotted name being typed, and the
      identifier every strategy sees is its last segment's tail: a suffix
      of that name. */
  lemma ImportPathExtendsPartial(contents: seq<char>, cursor: nat, leaf: TreeKind)
    requires cursor <= |contents|
    ensures var req := RequestFor(contents, cursor, leaf);
      req.importPath.Some? <==> leaf == Import
    ensures var req := RequestFor(contents, cursor, leaf);
      req.importPath.Some? ==>
        var path := req.importPath.value;
        |req.partial| <= |path| && req.partial == path[|path| - |req.partial|..]
  {
    PartialIsSuffixOfQualified(contents, cursor);
  }

  /** `compileAndComplete`: compute the partial identifier and the parenthesis
      lookahead, pick the strategy for the leaf at the cursor (`leafAt`
      stands for compiling the buffer and searching the syntax path), give
      the import strategy its import path, and return what the strategy
      (`strategy`) produces from the compiled buffer and the request,
      `None` standing for `null`. */
  method CompileAndComplete<Item>(
    contents: seq<char>, cursor: nat,
    leafAt: (seq<char>, nat) -> TreeKind,
    strategy: (seq<char>, StrategyRequest) -> Option<CompletionResult<Item>>)
    returns (result: Option<CompletionResult<Item>>)
    requires cursor <= |contents|
    ensures result == strategy(contents, RequestFor(contents, cursor, leafAt(contents, cursor)))
  {
    var partial := PartialIdentifier(contents, cursor);
    var parenFollows := EndsWithParen(contents, cursor);
    var chosen := SelectStrategy(leafAt(contents, cursor));
    var importPath := None;
    if chosen == ImportCompletion {
      var qualified := QualifiedPartialIdentifier(contents, cursor);
      importPath := Some(qualified);
    }
    result := strategy(contents, StrategyRequest(chosen, cursor, partial, parenFollows, importPath));
  }

  // ---------------------------------------------------------------------
  // The request

  /** `complete(file, line, column)`. `position` stands for the parsed file's
      line map, `prune` for erasing the method bodies away from the cursor,
      `leafAt` and `strategy` as for CompileAndComplete. The line and column
      are made 1-based, `';'` is inserted in place at the end of the cursor's
      line of the pruned buffer, the chosen strategy runs on that terminated
      buffer, and a missing result becomes the empty one. */
  method Complete<Item>(
    line: int32, column: int32,
    position: Position -> int,
    prune: nat -> seq<char>,
    leafAt: (seq<char>, nat) -> TreeKind,
    strategy: (seq<char>, StrategyRequest) -> Option<CompletionResult<Item>>)
    returns (result: CompletionResult<Item>)
    requires 0 <= position(OneBased(Position(line, column)))
    requires position(OneBased(Position(line, column))) <= |prune(position(OneBased(Position(line, column))))|
    ensures var cursor: nat := position(OneBased(Position(line, column)));
      var reduced := Terminated(prune(cursor), cursor);
      result == WithEmptyFallback(strategy(reduced, RequestFor(reduced, cursor, leafAt(reduced, cursor))))
  {
    var cursor: nat := position(OneBased(Position(line, column)));
    var contents := new CharBuffer(prune(cursor));
    var endOfLine := EndOfLine(contents.Contents(), cursor);
    contents.Insert(endOfLine, ';');
    var outcome := CompileAndComplete(contents.Contents(), cursor, leafAt, strategy);
    result := WithEmptyFallback(outcome);
  }

  /** The request fields (partial identifier, import path, parenthesis
      lookahead) computed from the terminated buffer equal those computed
      from the pruned buffer: the inserted `';'` changes none of them. It
      does change the compiled text the strategy receives, which is why it
      is inserted. */
  lemma TerminatorKeepsRequest(pruned: seq<char>, cursor: nat, leaf: TreeKind)
    requires cursor <= |pruned|
    ensures RequestFor(Terminated(pruned, cursor), cursor, leaf) == RequestFor(pruned, cursor, leaf)
  {
    TerminatorKeepsPartial(pruned, cursor);
    TerminatorKeepsParenLookahead(pruned, cursor);
  }
}
