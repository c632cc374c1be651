/** ASCII case mapping, used by header canonicalisation and by slugs. */
module Ascii {

  predicate IsUpper(c: char) { 'A' <= c <= 'Z' }

  predicate IsLower(c: char) { 'a' <= c <= 'z' }

  /** Upper-case an ASCII letter; every other character is returned unchanged. */
  function Upper(c: char): (u: char)
    ensures !IsLower(u)
    ensures IsLower(c) || u == c
  {
    if IsLower(c) then (c as int - 32) as char else c
  }

  /** Lower-case an ASCII letter; every other character is returned unchanged. */
  function Lower(c: char): (l: char)
    ensures !IsUpper(l)
    ensures IsUpper(c) || l == c
    ensures IsUpper(c) ==> IsLower(l) && Upper(l) == c
  {
    if IsUpper(c) then (c as int + 32) as char else c
  }
}
