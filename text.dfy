/**
 * String helpers: the composer's name normalisation (NFD, diacritics removed, lower case) and
 * the lexicographic order that stands for localeCompare.
 */
module Text {

  /**
   * One character of `norm`: upper-case letters of ASCII and Latin-1 become lower case, the
   * Latin-1 letters that NFD decomposes lose their accent, and the combining marks from U+0300
   * to U+0362 that are Unicode diacritics (all but U+034F and U+0358 to U+035C) as well as the
   * spacing diacritics ^ ` ¨ ¯ ´ · ¸ disappear. The combining Latin small letters U+0363 to
   * U+036F are not diacritics and stay.
   */
  function FoldChar(c: char): (r: seq<char>)
    ensures |r| <= 1
  {
    if 'A' <= c <= 'Z' then [(c as int + 32) as char]
    else if '\U{300}' <= c <= '\U{362}' && c != '\U{34F}' && !('\U{358}' <= c <= '\U{35C}') then []
    else if c in {'^', '`', '\U{A8}', '\U{AF}', '\U{B4}', '\U{B7}', '\U{B8}'} then []
    else if '\U{C0}' <= c <= '\U{C5}' || '\U{E0}' <= c <= '\U{E5}' then ['a']
    else if c == '\U{C7}' || c == '\U{E7}' then ['c']
    else if '\U{C8}' <= c <= '\U{CB}' || '\U{E8}' <= c <= '\U{EB}' then ['e']
    else if '\U{CC}' <= c <= '\U{CF}' || '\U{EC}' <= c <= '\U{EF}' then ['i']
    else if c == '\U{D1}' || c == '\U{F1}' then ['n']
    else if '\U{D2}' <= c <= '\U{D6}' || '\U{F2}' <= c <= '\U{F6}' then ['o']
    else if '\U{D9}' <= c <= '\U{DC}' || '\U{F9}' <= c <= '\U{FC}' then ['u']
    else if c == '\U{DD}' || c == '\U{FD}' || c == '\U{FF}' then ['y']
    else if '\U{C0}' <= c <= '\U{DE}' && c != '\U{D7}' then [(c as int + 32) as char]
    else [c]
  }

  /** norm(s): the key under which food names are compared. */
  function Norm(s: string): (r: string)
    ensures |r| <= |s|
  {
    if |s| == 0 then [] else FoldChar(s[0]) + Norm(s[1..])
  }

  /** norm leaves a string of lower-case ASCII letters and spaces as it is. */
  lemma {:induction false} NormPlain(s: string)
    requires forall i :: 0 <= i < |s| ==> s[i] == ' ' || 'a' <= s[i] <= 'z'
    ensures Norm(s) == s
    decreases |s|
  {
    if |s| > 0 {
      NormPlain(s[1..]);
      assert FoldChar(s[0]) == [s[0]];
      assert s == [s[0]] + s[1..];
    }
  }

  /**
   * Within the combining marks U+0300 to U+036F, a mark disappears exactly when Unicode lists
   * it as a diacritic; the others, such as the combining Latin small letters, stay as they are.
   */
  lemma CombiningMarks(c: char)
    requires '\U{300}' <= c <= '\U{36F}'
    ensures FoldChar(c) == [] <==> (c <= '\U{362}' && c != '\U{34F}' && !('\U{358}' <= c <= '\U{35C}'))
    ensures FoldChar(c) != [] ==> FoldChar(c) == [c]
  {
  }

  /** a comes no later than b in code-unit lexicographic order (localeCompare(a, b) <= 0). */
  predicate StrLe(a: string, b: string)
    decreases |a|
  {
    if |a| == 0 then true
    else if |b| == 0 then false
    else if a[0] != b[0] then a[0] < b[0]
    else StrLe(a[1..], b[1..])
  }

  lemma {:induction false} StrLeTotal(a: string, b: string)
    ensures StrLe(a, b) || StrLe(b, a)
    decreases |a|
  {
    if |a| > 0 && |b| > 0 && a[0] == b[0] {
      StrLeTotal(a[1..], b[1..]);
    }
  }

  lemma {:induction false} StrLeAntisymmetric(a: string, b: string)
    requires StrLe(a, b) && StrLe(b, a)
    ensures a == b
    decreases |a|
  {
    if |a| > 0 && |b| > 0 {
      StrLeAntisymmetric(a[1..], b[1..]);
      assert a == [a[0]] + a[1..];
      assert b == [b[0]] + b[1..];
    }
  }

  lemma {:induction false} StrLeTransitive(a: string, b: string, c: string)
    requires StrLe(a, b) && StrLe(b, c)
    ensures StrLe(a, c)
    decreases |a|
  {
    if |a| > 0 && |b| > 0 && |c| > 0 && a[0] == b[0] && b[0] == c[0] {
      StrLeTransitive(a[1..], b[1..], c[1..]);
    }
  }
}
