# Java completion provider: request pipeline and text scans

This project models the request pipeline of the Java language server's
completion provider (`CompletionProvider`). A completion request arrives as a
file and a 0-based line and column. The provider then:

1. makes the position 1-based;
2. takes the pruned source of the file (method bodies away from the cursor
   erased) as a mutable text buffer;
3. inserts a `';'` at the end of the cursor's line, so that the unfinished
   statement parses;
4. reads the identifier typed so far, backward from the cursor;
5. checks whether a `'('` follows the identifier characters after the cursor;
6. picks one of six completion strategies from the kind of the syntax node at
   the cursor;
7. gives the import strategy the dotted name typed so far;
8. returns what the strategy produces, or the empty result when it produces
   nothing.

It also models which files the provider accepts: only `.java` files.

Modules:

- `Characters`: the character classes. `IsIdentPart` is Java's identifier-part
  test. `IsQualifiedIdentifierChar` also accepts `'.'`. `IsLineTerminator`
  holds for `'\r'` and `'\n'`.
- `Scanning`: the four index loops, written as methods with loop invariants.
  Each loop is proved equal to a recursive reference definition:
  - `ScanForward` is the forward scan to the first stopping character;
  - `RunStart` is the backward run of accepted characters.

  The contracts of these two definitions state bounds and maximality. The
  module's lemmas relate the scans to each other and to the `';'` insertion.
- `CharBuffers`: `CharBuffer`, the in-place text buffer. It is an array with
  spare capacity. Its `Insert` shifts the tail right and grows a full array.
- `Dispatch`: the leaf kinds, the strategies, and the switch between them.
- `CompletionProvider`:
  - the line and column increment, with Java's 32-bit wrap-around;
  - the empty-result fallback and the `.java` file check;
  - the request built for a strategy;
  - the `compileAndComplete` and `complete` methods.

The compiler and its syntax trees are outside this model. So are the line
map, the method-body pruner, the syntax-path search and the strategies
themselves. Four function-valued parameters of `Complete` or
`CompileAndComplete` stand for the values these collaborators compute:

- `position` is the line map of the parsed file;
- `prune` is the pruned buffer for a cursor;
- `leafAt` is the kind of the leaf on the syntax path at the cursor of the
  compiled buffer;
- `strategy` is the result of the chosen strategy for the compiled buffer
  text and the request values computed for it, with `None` for `null`.

## Model

| member | source | states |
|---|---|---|
| `Characters.IsIdentPart` | lsp/java/src/main/java/com/itsaky/lsp/java/providers/CompletionProvider.java:157-185 | `Character.isJavaIdentifierPart` (called at lines 159, 167 and 184), exact on U+0000 to U+00FF and false above; line terminators, `'('`, `';'` and `'.'` are never identifier parts, ASCII letters and digits always are |
| `Characters.IsQualifiedIdentifierChar` | lsp/java/src/main/java/com/itsaky/lsp/java/providers/CompletionProvider.java:183-185 | a qualified-name character is `'.'` or an identifier part, so every identifier part is one |
| `Scanning.ScanForward` | lsp/java/src/main/java/com/itsaky/lsp/java/providers/CompletionProvider.java:102-109 | the forward scan stops at or after its start and within the buffer (or at the start when that is past the end); nothing before the stop index satisfies the stop class, and the stop index is the end or a stopping character |
| `Scanning.RunStart` | lsp/java/src/main/java/com/itsaky/lsp/java/providers/CompletionProvider.java:157-163 | the backward run starts at or before `end`, every character in it is accepted, and the character before it (if any) is not: the run is maximal |
| `Scanning.Inserted` | lsp/java/src/main/java/com/itsaky/lsp/java/providers/CompletionProvider.java:90 | inserting a character grows the text by one, puts the character at the index, keeps everything before it and shifts everything after it right by one |
| `Scanning.EndOfLine` | lsp/java/src/main/java/com/itsaky/lsp/java/providers/CompletionProvider.java:102-109 | the `endOfLine` loop returns the first `'\r'`/`'\n'` at or after the cursor, or the buffer's length, or the cursor itself when it is past the end |
| `Scanning.PartialIdentifier` | lsp/java/src/main/java/com/itsaky/lsp/java/providers/CompletionProvider.java:157-163 | the `partialIdentifier` loop returns the maximal run of identifier parts ending at `end`; it is empty exactly when `end` is 0 or the character before `end` is not an identifier part |
| `Scanning.QualifiedPartialIdentifier` | lsp/java/src/main/java/com/itsaky/lsp/java/providers/CompletionProvider.java:175-181 | the `qualifiedPartialIdentifier` loop returns the maximal run of identifier-or-`'.'` characters ending at `end`; it is empty exactly when `end` is 0 or the character before `end` is neither |
| `Scanning.EndsWithParen` | lsp/java/src/main/java/com/itsaky/lsp/java/providers/CompletionProvider.java:165-172 | the `endsWithParen` loop returns whether the first non-identifier character at or after the cursor exists and is `'('` |
| `Scanning.ScanForwardUnique` | lsp/java/src/main/java/com/itsaky/lsp/java/providers/CompletionProvider.java:102-109 | the forward scan's stop index is the only index with its defining properties |
| `Scanning.RunStartUnique` | lsp/java/src/main/java/com/itsaky/lsp/java/providers/CompletionProvider.java:157-163 | the backward run's start is the only start with its defining properties |
| `Scanning.ScanForwardEarlier` | lsp/java/src/main/java/com/itsaky/lsp/java/providers/CompletionProvider.java:165-172 | a forward scan with a wider stop class stops no later; used to show the identifier scan ends at or before the end of the line |
| `Scanning.RunStartWider` | lsp/java/src/main/java/com/itsaky/lsp/java/providers/CompletionProvider.java:175-185 | a backward run with a wider accept class reaches back at least as far |
| `Scanning.RunStartDependsOnPrefix` | lsp/java/src/main/java/com/itsaky/lsp/java/providers/CompletionProvider.java:157-163 | a backward run ending at `end` depends only on the characters before `end` |
| `Scanning.PartialIsSuffixOfQualified` | lsp/java/src/main/java/com/itsaky/lsp/java/providers/CompletionProvider.java:175-185 | the partial identifier is a suffix of the qualified partial identifier and no longer than it |
| `Scanning.OpensParenCharacterised` | lsp/java/src/main/java/com/itsaky/lsp/java/providers/CompletionProvider.java:165-172 | `endsWithParen` is true if and only if some index at or after the cursor holds `'('` (a non-identifier part) with only identifier parts between the cursor and it |
| `Scanning.OpensParenNeedsNonIdentifier` | lsp/java/src/main/java/com/itsaky/lsp/java/providers/CompletionProvider.java:165-172 | `endsWithParen` is false when only identifier parts follow the cursor, including when the cursor is at or past the end |
| `Scanning.TerminatorInsertion` | lsp/java/src/main/java/com/itsaky/lsp/java/providers/CompletionProvider.java:89-90 | inserting `';'` at the end of the cursor's line grows the buffer by one; `';'` lands at that index; the text before it, and so before the cursor, is unchanged; the rest shifts right by one; no line terminator lies between the cursor and the `';'` |
| `Scanning.TerminatorKeepsPartial` | lsp/java/src/main/java/com/itsaky/lsp/java/providers/CompletionProvider.java:88-114 | the partial and the qualified partial identifier read from the terminated buffer equal those of the pruned buffer |
| `Scanning.TerminatorKeepsParenLookahead` | lsp/java/src/main/java/com/itsaky/lsp/java/providers/CompletionProvider.java:88-115 | `endsWithParen` on the terminated buffer gives the same answer as on the pruned buffer |
| `CharBuffers.CharBuffer.Insert` | lsp/java/src/main/java/com/itsaky/lsp/java/providers/CompletionProvider.java:90 | `insert` changes the buffer's text to the old text with the character inserted at the index, in the same array or a fresh larger one, and keeps the buffer valid |
| `Dispatch.SelectStrategy` | lsp/java/src/main/java/com/itsaky/lsp/java/providers/CompletionProvider.java:122-142 | the switch is total; the chosen strategy is the one that serves the leaf kind; the keyword fallback is taken exactly for the other kinds and the import strategy exactly for an import leaf |
| `Dispatch.DispatchIsBijective` | lsp/java/src/main/java/com/itsaky/lsp/java/providers/CompletionProvider.java:122-142 | every strategy is chosen for exactly one leaf kind (the keyword one for all other kinds): the switch and the served-kind map are inverse |
| `CompletionProvider.Increment` | lsp/java/src/main/java/com/itsaky/lsp/java/providers/CompletionProvider.java:81-82 | `++` on an `int` adds one, wrapping from the largest value to the smallest |
| `CompletionProvider.OneBased` | lsp/java/src/main/java/com/itsaky/lsp/java/providers/CompletionProvider.java:80-82 | a non-negative 0-based line and column (below the largest `int`) become the 1-based ones, one larger and at least 1 |
| `CompletionProvider.OneBasedRoundTrip` | lsp/java/src/main/java/com/itsaky/lsp/java/providers/CompletionProvider.java:80-82 | the conversion to 1-based loses no position, even across the wrap-around |
| `CompletionProvider.EmptyResult` | lsp/java/src/main/java/com/itsaky/lsp/java/providers/CompletionProvider.java:94 | the empty result has no items and is not incomplete |
| `CompletionProvider.WithEmptyFallback` | lsp/java/src/main/java/com/itsaky/lsp/java/providers/CompletionProvider.java:93-95 | a missing (`null`) result becomes the empty result and a present result is passed on unchanged |
| `CompletionProvider.FileName` | lsp/java/src/main/java/com/itsaky/lsp/java/providers/CompletionProvider.java:67 | a file's name is the suffix of its path after the last `'/'` (or the whole path) and contains no `'/'` |
| `CompletionProvider.EndsWith` | lsp/java/src/main/java/com/itsaky/lsp/java/providers/CompletionProvider.java:67 | the suffix test holds if and only if the suffix is no longer than the string and equals its tail |
| `CompletionProvider.CanComplete` | lsp/java/src/main/java/com/itsaky/lsp/java/providers/CompletionProvider.java:66-68 | a file is completed if and only if the general provider check accepts it and its name ends in `.java` |
| `CompletionProvider.FileNameAfterSeparator` | lsp/java/src/main/java/com/itsaky/lsp/java/providers/CompletionProvider.java:67 | the name of `dir/name` is `name` when `name` has no separator |
| `CompletionProvider.JavaSourcesAreCompleted` | lsp/java/src/main/java/com/itsaky/lsp/java/providers/CompletionProvider.java:66-68 | `dir/Stem.java` is completed whenever the general check accepts it |
| `CompletionProvider.OtherFilesAreNotCompleted` | lsp/java/src/main/java/com/itsaky/lsp/java/providers/CompletionProvider.java:66-68 | a file whose name does not end in `.java` is never completed |
| `CompletionProvider.RequestFor` | lsp/java/src/main/java/com/itsaky/lsp/java/providers/CompletionProvider.java:114-152 | the strategy gets the chosen strategy, the cursor, a partial identifier made of identifier parts, and an import path if and only if it is the import strategy |
| `CompletionProvider.ImportPathExtendsPartial` | lsp/java/src/main/java/com/itsaky/lsp/java/providers/CompletionProvider.java:147-150 | the import path is supplied exactly for an import leaf, and the partial identifier is a suffix of it |
| `CompletionProvider.CompileAndComplete` | lsp/java/src/main/java/com/itsaky/lsp/java/providers/CompletionProvider.java:111-154 | `compileAndComplete` returns what the strategy produces for the compiled buffer and the request built from that buffer, the cursor and the leaf kind at the cursor |
| `CompletionProvider.Complete` | lsp/java/src/main/java/com/itsaky/lsp/java/providers/CompletionProvider.java:77-100 | `complete` returns the strategy's result, or the empty result instead of `null`. The strategy runs for the cursor at the 1-based position, on the pruned buffer with `';'` at the end of the cursor's line, and receives that terminated buffer |
| `CompletionProvider.TerminatorKeepsRequest` | lsp/java/src/main/java/com/itsaky/lsp/java/providers/CompletionProvider.java:88-115 | the request fields built from the terminated buffer (partial identifier, import path, parenthesis lookahead) equal those built from the pruned buffer, for every leaf kind; the compiled text itself does differ |

## Left out

- Parsing, compiling, the line map (`getPosition`), the method-body pruner and the syntax-path search are compiler calls whose source is not part of this model. Only the values they produce are parameters: the cursor offset (`position`), the pruned text (`prune`) and the leaf kind at the cursor (`leafAt`).
- The strategy is built with the file, the compiler and the settings (line 145) and handed the compiled task and the syntax path (line 152). None of these objects are modelled. `strategy` receives the compiled buffer's text in their place, together with the request values.
- The `SynchronizedTask` lock exists for concurrency. Concurrency is not modelled: the request is one sequential call.
- The strategies are created reflectively, and the strategy classes themselves are not part of this model. Only the strategy tag and the request it is handed are modelled, and the strategy's result is a parameter.
- The top-level snippets pass after the fallback (line 97) is not part of this model. So is the `canComplete` of the general provider interface, which is the `baseAccepts` parameter.
- Logging and timing (lines 78, 84, 98, 112, 119, 187-201) have no behavioural content.
- `Characters.IsIdentPart` follows `Character.isJavaIdentifierPart` exactly only for U+0000 to U+00FF. It treats every character above as not an identifier part, because Unicode's category tables are not modelled. All scan properties are stated for whatever this predicate says.
- Java strings are sequences of UTF-16 code units, while Dafny's `char` is a Unicode scalar value. So offsets past a surrogate pair are not modelled.
- The `long` to `int` cast of the cursor is not modelled. `Complete` requires the line map's cursor to lie within the pruned buffer, where the cast changes nothing. For a cursor past the pruned buffer's end, Java's `insert` would throw, and that failure is not modelled.
- `CompletionProvider.FileName` splits the path's text at `'/'`. The normalization that `Path` and `File` apply, and other platforms' separators, are not modelled.
- Buffer and sequence lengths are unbounded integers. Java's limit on string length is not modelled.
