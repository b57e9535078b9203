/**
 * Character classes used by the completion provider's text scans.
 */
module Characters {

  /** The characters Java treats as "identifier-ignorable": the ISO control
      characters that are not whitespace, plus the format character U+00AD. */
  predicate IsIdentifierIgnorable(c: char) {
    || ('\0' <= c <= '\U{8}')
    || ('\U{E}' <= c <= '\U{1B}')
    || ('\U{7F}' <= c <= '\U{9F}')
    || c == '\U{AD}'
  }

  /** `Character.isJavaIdentifierPart`, exact on the Latin-1 range
      (letters, digits, connector `_`, currency symbols, identifier-ignorable
      controls) and false for every character above U+00FF. */
  predicate IsIdentPart(c: char)
    ensures IsIdentPart(c) ==> c != '\r' && c != '\n' && c != '(' && c != ';' && c != '.'
    ensures ('a' <= c <= 'z' || 'A' <= c <= 'Z' || '0' <= c <= '9') ==> IsIdentPart(c)
    ensures c > '\U{FF}' ==> !IsIdentPart(c)
  {
    || ('a' <= c <= 'z')
    || ('A' <= c <= 'Z')
    || ('0' <= c <= '9')
    || c == '_'
    || c == '$'
    || ('\U{A2}' <= c <= '\U{A5}')
    || c == '\U{AA}' || c == '\U{B5}' || c == '\U{BA}'
    || ('\U{C0}' <= c <= '\U{FF}' && c != '\U{D7}' && c != '\U{F7}')
    || IsIdentifierIgnorable(c)
  }

  /** The negation of IsIdentPart, as a predicate value for forward scans. */
  predicate IsNotIdentPart(c: char) {
    !IsIdentPart(c)
  }

  /** `isQualifiedIdentifierChar`: an identifier part or the package separator. */
  predicate IsQualifiedIdentifierChar(c: char)
    ensures IsIdentPart(c) ==> IsQualifiedIdentifierChar(c)
  {
    c == '.' || IsIdentPart(c)
  }

  /** The two characters that end a line for `endOfLine`. */
  predicate IsLineTerminator(c: char) {
    c == '\r' || c == '\n'
  }

  /** A line terminator never belongs to an identifier, and neither do the
      inserted statement terminator and the open parenthesis. */
  lemma PunctuationIsNotIdentifier(c: char)
    ensures IsLineTerminator(c) ==> !IsIdentPart(c)
    ensures !IsIdentPart(';') && !IsIdentPart('(') && !IsIdentPart('.')
    ensures IsQualifiedIdentifierChar('.') && !IsQualifiedIdentifierChar(';')
  {
  }
}
