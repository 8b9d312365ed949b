/** ASCII character classes used by the skill-to-topic rule.
    `IsWhitespace` is the ASCII part of JavaScript's `\s` class and `ToLower`
    is the ASCII part of `String.prototype.toLowerCase`. A non-ASCII
    character counts as neither a letter nor whitespace, so it passes through
    unchanged; there the model differs from JavaScript. */
module Ascii {

  /** Tab, line feed, vertical tab, form feed, carriage return and space. */
  predicate IsWhitespace(c: char) {
    c == ' ' || c == '\t' || c == '\n' || c == '\r' || c == '\U{000B}' || c == '\U{000C}'
  }

  predicate IsUpper(c: char) {
    'A' <= c <= 'Z'
  }

  predicate IsLower(c: char) {
    'a' <= c <= 'z'
  }

  /** Lower-cases one character: an upper-case letter becomes its lower-case
      letter, every other character is left alone. */
  function ToLower(c: char): (r: char)
    ensures !IsUpper(r)
    ensures IsUpper(c) ==> IsLower(r) && r as int - c as int == 'a' as int - 'A' as int
    ensures !IsUpper(c) ==> r == c
    ensures IsWhitespace(r) <==> IsWhitespace(c)
  {
    if IsUpper(c) then (c as int - 'A' as int + 'a' as int) as char else c
  }
}
