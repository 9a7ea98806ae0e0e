/**
 The keyboard shortcuts of the recipe page: the key name is lower-cased, "m"
 toggles the theme and "r" resets the page; every other key is ignored.
 */
module Shortcuts {

  datatype Command = ThemeKey | ResetKey | OtherKey

  const Lowercase: string := "abcdefghijklmnopqrstuvwxyz"

  /** Lower-casing of one character, for the letters A to Z. */
  function LowerChar(c: char): (l: char)
    ensures 'A' <= c <= 'Z' ==> l == Lowercase[c as int - 'A' as int]
    ensures !('A' <= c <= 'Z') ==> l == c
    ensures !('A' <= l <= 'Z')
  {
    if 'A' <= c <= 'Z' then (c as int + 32) as char else c
  }

  /** String lower-casing, character by character. */
  function ToLowerCase(s: string): (r: string)
    ensures |r| == |s|
    ensures forall i :: 0 <= i < |s| ==> r[i] == LowerChar(s[i])
  {
    if s == [] then [] else [LowerChar(s[0])] + ToLowerCase(s[1..])
  }

  /** A key lower-cases to the one-letter string of a lower-case letter exactly when it is that letter in either case. */
  lemma LowerIsLetter(key: string, lower: char)
    requires 'a' <= lower <= 'z'
    ensures ToLowerCase(key) == [lower]
        <==> key == [lower] || key == [(lower as int - 32) as char]
  {
  }

  /** The keydown dispatcher's choice, case-insensitive in the key. */
  function Shortcut(key: string): (c: Command)
    ensures c == ThemeKey <==> key == "m" || key == "M"
    ensures c == ResetKey <==> key == "r" || key == "R"
    ensures c == OtherKey <==> key != "m" && key != "M" && key != "r" && key != "R"
  {
    LowerIsLetter(key, 'm');
    LowerIsLetter(key, 'r');
    var k := ToLowerCase(key);
    if k == "m" then ThemeKey else if k == "r" then ResetKey else OtherKey
  }
}
