/** String helpers shared by the routes: ASCII lower-casing, prefix tests and field truthiness. */
module Text {
  import opened Wrappers

  /**
   * A string field of a JSON request body is truthy in JavaScript when it is
   * present and not the empty string; `None` stands for a missing field.
   */
  predicate Truthy(field: Option<string>) {
    field.Some? && field.value != ""
  }

  predicate IsUpper(c: char) { 'A' <= c <= 'Z' }

  /** `toLowerCase` restricted to ASCII: maps A-Z to a-z and leaves every other character alone. */
  function LowerChar(c: char): (r: char)
    ensures !IsUpper(r)
    ensures !IsUpper(c) ==> r == c
    ensures IsUpper(c) ==> r as int == c as int + 32
  {
    if IsUpper(c) then (c as int + 32) as char else c
  }

  function Lower(s: string): (r: string)
    ensures |r| == |s|
    ensures forall i :: 0 <= i < |s| ==> r[i] == LowerChar(s[i])
  {
    seq(|s|, i requires 0 <= i < |s| => LowerChar(s[i]))
  }

  /** `String.prototype.startsWith`, written as a character-by-character comparison. */
  function StartsWith(s: string, prefix: string): (r: bool)
    ensures r <==> |prefix| <= |s| && s[..|prefix|] == prefix
  {
    if prefix == [] then true
    else if s == [] then false
    else s[0] == prefix[0] && StartsWith(s[1..], prefix[1..])
  }
}
