/**
 * The index scans the completion provider runs over the source buffer:
 * forward to the end of the line, backward over the identifier being typed,
 * forward over identifier characters to see whether a call parenthesis
 * follows, and the insertion of the synthetic statement terminator.
 *
 * Each scan has a recursive reference definition whose contract states the
 * scanned run's bounds and maximality; the methods run the source's loops
 * and are proved equal to the reference definitions.
 */
module Scanning {
  import opened Characters

  // ---------------------------------------------------------------------
  // Reference definitions

  /** The first index at or after `from` whose character satisfies `stop`,
      or the end of `s`; `from` itself when it is already at or past the end. */
  function ScanForward(s: seq<char>, from: nat, stop: char -> bool): (i: nat)
    ensures from <= i
    ensures from >= |s| ==> i == from
    ensures from <= |s| ==> i <= |s|
    ensures forall k :: from <= k < i ==> !stop(s[k])
    ensures i < |s| ==> stop(s[i])
    decreases |s| - from
  {
    if from >= |s| || stop(s[from]) then from else ScanForward(s, from + 1, stop)
  }

  /** The start of the longest run of `accept` characters that ends at `end`. */
  function RunStart(s: seq<char>, end: nat, accept: char -> bool): (start: nat)
    requires end <= |s|
    ensures start <= end
    ensures forall k :: start <= k < end ==> accept(s[k])
    ensures start == 0 || !accept(s[start - 1])
    decreases end
  {
    if end == 0 || !accept(s[end - 1]) then end else RunStart(s, end - 1, accept)
  }

  /** Where `endOfLine` stops: the first `'\r'` or `'\n'` at or after `cursor`. */
  function LineEnd(s: seq<char>, cursor: nat): nat {
    ScanForward(s, cursor, IsLineTerminator)
  }

  /** The first character at or after `cursor` that is not an identifier part. */
  function IdentifierEnd(s: seq<char>, cursor: nat): nat {
    ScanForward(s, cursor, IsNotIdentPart)
  }

  /** What `partialIdentifier` returns: the identifier characters just before `end`. */
  function PartialIdentifierAt(s: seq<char>, end: nat): seq<char>
    requires end <= |s|
  {
    s[RunStart(s, end, IsIdentPart)..end]
  }

  /** What `qualifiedPartialIdentifier` returns: the identifier-or-`'.'`
      characters just before `end`. */
  function QualifiedPartialIdentifierAt(s: seq<char>, end: nat): seq<char>
    requires end <= |s|
  {
    s[RunStart(s, end, IsQualifiedIdentifierChar)..end]
  }

  /** What `endsWithParen` returns: the first non-identifier character after
      the cursor exists and is an open parenthesis. */
  predicate OpensParen(s: seq<char>, cursor: nat) {
    var i := IdentifierEnd(s, cursor);
    i < |s| && s[i] == '('
  }

  /** `s` with `c` inserted at index `at`, as `StringBuilder.insert` leaves it. */
  function Inserted(s: seq<char>, at: nat, c: char): (r: seq<char>)
    requires at <= |s|
    ensures |r| == |s| + 1
    ensures r[at] == c
    ensures forall k :: 0 <= k < at ==> r[k] == s[k]
    ensures forall k :: at <= k < |s| ==> r[k + 1] == s[k]
  {
    s[..at] + [c] + s[at..]
  }

  /** The buffer after `';'` has been inserted at the end of the cursor's line. */
  function Terminated(s: seq<char>, cursor: nat): seq<char>
    requires cursor <= |s|
  {
    Inserted(s, LineEnd(s, cursor), ';')
  }

  // ---------------------------------------------------------------------
  // The source's loops

  /** `endOfLine`: walk forward from the cursor to the first line terminator. */
  method EndOfLine(contents: seq<char>, cursor: nat) returns (e: nat)
    ensures e == LineEnd(contents, cursor)
  {
    e := cursor;
    while e < |contents|
      invariant cursor <= e
      invariant LineEnd(contents, e) == LineEnd(contents, cursor)
      decreases |contents| - e
    {
      var c := contents[e];
      if c == '\r' || c == '\n' {
        break;
      }
      e := e + 1;
    }
  }

  /** `partialIdentifier`: walk backward from `end` over identifier parts. */
  method PartialIdentifier(contents: seq<char>, end: nat) returns (r: seq<char>)
    requires end <= |contents|
    ensures r == PartialIdentifierAt(contents, end)
    ensures forall k :: 0 <= k < |r| ==> IsIdentPart(r[k])
    ensures r == [] <==> end == 0 || !IsIdentPart(contents[end - 1])
  {
    var start: nat := end;
    while start > 0 && IsIdentPart(contents[start - 1])
      invariant start <= end
      invariant RunStart(contents, start, IsIdentPart) == RunStart(contents, end, IsIdentPart)
    {
      start := start - 1;
    }
    r := contents[start..end];
  }

  /** `qualifiedPartialIdentifier`: the same walk, also stepping over `'.'`. */
  method QualifiedPartialIdentifier(contents: seq<char>, end: nat) returns (r: seq<char>)
    requires end <= |contents|
    ensures r == QualifiedPartialIdentifierAt(contents, end)
    ensures forall k :: 0 <= k < |r| ==> IsQualifiedIdentifierChar(r[k])
    ensures r == [] <==> end == 0 || !IsQualifiedIdentifierChar(contents[end - 1])
  {
    var start: nat := end;
    while start > 0 && IsQualifiedIdentifierChar(contents[start - 1])
      invariant start <= end
      invariant RunStart(contents, start, IsQualifiedIdentifierChar)
             == RunStart(contents, end, IsQualifiedIdentifierChar)
    {
      start := start - 1;
    }
    r := contents[start..end];
  }

  /** `endsWithParen`: skip identifier parts forward from the cursor and
      report whether the first other character is `'('`. */
  method EndsWithParen(contents: seq<char>, cursor: nat) returns (b: bool)
    ensures b == OpensParen(contents, cursor)
  {
    var i := cursor;
    while i < |contents|
      invariant cursor <= i
      invariant IdentifierEnd(contents, i) == IdentifierEnd(contents, cursor)
      decreases |contents| - i
    {
      if !IsIdentPart(contents[i]) {
        return contents[i] == '(';
      }
      i := i + 1;
    }
    return false;
  }

  // ---------------------------------------------------------------------
  // Properties of the scans

  /** ScanForward is the only index with its three defining properties. */
  lemma ScanForwardUnique(s: seq<char>, from: nat, stop: char -> bool, i: nat)
    requires from <= i <= |s|
    requires forall k :: from <= k < i ==> !stop(s[k])
    requires i == |s| || stop(s[i])
    ensures ScanForward(s, from, stop) == i
  {
  }

  /** RunStart is the only start index with its three defining properties:
      the returned run is exactly the maximal one. */
  lemma RunStartUnique(s: seq<char>, end: nat, accept: char -> bool, start: nat)
    requires start <= end <= |s|
    requires forall k :: start <= k < end ==> accept(s[k])
    requires start == 0 || !accept(s[start - 1])
    ensures RunStart(s, end, accept) == start
  {
  }

  /** A more permissive stopping class stops no later. */
  lemma ScanForwardEarlier(s: seq<char>, from: nat, p: char -> bool, q: char -> bool)
    requires forall c :: p(c) ==> q(c)
    ensures ScanForward(s, from, q) <= ScanForward(s, from, p)
  {
  }

  /** A more permissive accepting class reaches back at least as far. */
  lemma RunStartWider(s: seq<char>, end: nat, p: char -> bool, q: char -> bool)
    requires end <= |s|
    requires forall c :: p(c) ==> q(c)
    ensures RunStart(s, end, q) <= RunStart(s, end, p)
  {
  }

  /** A backward run ending at `end` depends only on the characters before `end`. */
  lemma RunStartDependsOnPrefix(s: seq<char>, t: seq<char>, end: nat, accept: char -> bool)
    requires end <= |s| && end <= |t|
    requires forall k :: 0 <= k < end ==> s[k] == t[k]
    ensures RunStart(s, end, accept) == RunStart(t, end, accept)
  {
  }

  /** The identifier being typed is always a suffix of the qualified name
      being typed, never longer than it. */
  lemma PartialIsSuffixOfQualified(s: seq<char>, end: nat)
    requires end <= |s|
    ensures var a, b := PartialIdentifierAt(s, end), QualifiedPartialIdentifierAt(s, end);
            |a| <= |b| && a == b[|b| - |a|..]
  {
    RunStartWider(s, end, IsIdentPart, IsQualifiedIdentifierChar);
  }

  /** `endsWithParen` returns true exactly when some index at or after the
      cursor holds `'('`, is not an identifier part, and only identifier
      parts lie between the cursor and it. */
  lemma OpensParenCharacterised(s: seq<char>, cursor: nat)
    ensures OpensParen(s, cursor) <==>
      exists i :: cursor <= i < |s| && s[i] == '(' && !IsIdentPart(s[i]) &&
        forall j :: cursor <= j < i ==> IsIdentPart(s[j])
  {
    var f := IdentifierEnd(s, cursor);
    if OpensParen(s, cursor) {
      assert cursor <= f < |s| && s[f] == '(' && !IsIdentPart(s[f]);
      assert forall j :: cursor <= j < f ==> IsIdentPart(s[j]);
    }
    if i :| cursor <= i < |s| && s[i] == '(' && !IsIdentPart(s[i]) &&
            forall j :: cursor <= j < i ==> IsIdentPart(s[j]) {
      ScanForwardUnique(s, cursor, IsNotIdentPart, i);
    }
  }

  /** No parenthesis is reported when only identifier parts follow the cursor,
      in particular when the cursor is at or past the end of the buffer. */
  lemma OpensParenNeedsNonIdentifier(s: seq<char>, cursor: nat)
    requires forall j :: cursor <= j < |s| ==> IsIdentPart(s[j])
    ensures !OpensParen(s, cursor)
  {
  }

  // ---------------------------------------------------------------------
  // The statement terminator

  /** Inserting `';'` at the end of the cursor's line grows the buffer by one,
      puts `';'` at that index, keeps everything before it (so everything
      before the cursor) and shifts everything after it right by one. */
  lemma TerminatorInsertion(s: seq<char>, cursor: nat)
    requires cursor <= |s|
    ensures var e, t := LineEnd(s, cursor), Terminated(s, cursor);
      && cursor <= e <= |s|
      && |t| == |s| + 1
      && t[e] == ';'
      && t[..e] == s[..e]
      && t[e + 1..] == s[e..]
      && t[..cursor] == s[..cursor]
      && forall k :: cursor <= k < e ==> !IsLineTerminator(t[k])
  {
    var e, t := LineEnd(s, cursor), Terminated(s, cursor);
    assert t[..e] == s[..e];
    assert t[e + 1..] == s[e..];
  }

  /** The identifier being typed is the same before and after the terminator
      is inserted, plain or qualified. */
  lemma TerminatorKeepsPartial(s: seq<char>, cursor: nat)
    requires cursor <= |s|
    ensures PartialIdentifierAt(Terminated(s, cursor), cursor) == PartialIdentifierAt(s, cursor)
    ensures QualifiedPartialIdentifierAt(Terminated(s, cursor), cursor) == QualifiedPartialIdentifierAt(s, cursor)
  {
    var t := Terminated(s, cursor);
    RunStartDependsOnPrefix(s, t, cursor, IsIdentPart);
    RunStartDependsOnPrefix(s, t, cursor, IsQualifiedIdentifierChar);
    assert t[..cursor] == s[..cursor];
  }

  /** The open-parenthesis lookahead gives the same answer before and after
      the terminator is inserted: line terminators are not identifier parts,
      so the identifier run after the cursor ends at or before the line's
      end, and the inserted `';'` is not `'('`. */
  lemma TerminatorKeepsParenLookahead(s: seq<char>, cursor: nat)
    requires cursor <= |s|
    ensures OpensParen(Terminated(s, cursor), cursor) == OpensParen(s, cursor)
  {
    var e, t := LineEnd(s, cursor), Terminated(s, cursor);
    var f := IdentifierEnd(s, cursor);
    forall c | IsLineTerminator(c) ensures IsNotIdentPart(c) {
      PunctuationIsNotIdentifier(c);
    }
    ScanForwardEarlier(s, cursor, IsLineTerminator, IsNotIdentPart);
    assert f <= e;
    PunctuationIsNotIdentifier(';');
    if f < e {
      assert t[f] == s[f];
      ScanForwardUnique(t, cursor, IsNotIdentPart, f);
    } else {
      ScanForwardUnique(t, cursor, IsNotIdentPart, e);
      assert e < |s| ==> IsLineTerminator(s[e]);
    }
  }
}
