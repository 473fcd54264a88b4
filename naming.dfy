/** The display name of a unit: its internal name split at `_`, each word
    with its first character upper-cased, joined with spaces. The split,
    map and join are modelled as written and proved equal to a character by
    character description of the result. */
module Naming {

  /** `toUpperCase` of one character, for the ASCII letters. */
  function Upper(c: char): char {
    if 'a' <= c <= 'z' then (c as int - 32) as char else c
  }

  /** `s.split(sep)`: the pieces between separators; never empty. */
  function Split(s: string, sep: char): (r: seq<string>)
    ensures |r| >= 1
    decreases |s|
  {
    if |s| == 0 then [""]
    else
      var rest := Split(s[1..], sep);
      if s[0] == sep then [""] + rest
      else [[s[0]] + rest[0]] + rest[1..]
  }

  /** `words.join(sep)` */
  function Join(words: seq<string>, sep: char): string
    decreases |words|
  {
    if |words| == 0 then ""
    else if |words| == 1 then words[0]
    else words[0] + [sep] + Join(words[1..], sep)
  }

  /** `word.charAt(0).toUpperCase() + word.slice(1)` */
  function Capitalize(word: string): string {
    if |word| == 0 then "" else [Upper(word[0])] + word[1..]
  }

  function CapitalizeAll(words: seq<string>): (r: seq<string>)
    ensures |r| == |words|
    decreases |words|
  {
    if |words| == 0 then [] else [Capitalize(words[0])] + CapitalizeAll(words[1..])
  }

  /** `getName` */
  function GetName(unitName: string): string {
    Join(CapitalizeAll(Split(unitName, '_')), ' ')
  }

  /** The character `getName` puts at position `i`: a space for `_`, the
      upper-cased character at the start of a word, the character itself
      elsewhere. */
  function NameChar(s: string, i: nat): char
    requires i < |s|
  {
    if s[i] == '_' then ' '
    else if i == 0 || s[i - 1] == '_' then Upper(s[i])
    else s[i]
  }

  /** The scan behind `NameChar`, with the word-start flag carried along. */
  function Display(s: string, atStart: bool): string
    decreases |s|
  {
    if |s| == 0 then ""
    else if s[0] == '_' then " " + Display(s[1..], true)
    else [if atStart then Upper(s[0]) else s[0]] + Display(s[1..], false)
  }

  /** The words with the first one capitalized or not, the rest capitalized. */
  function CapitalizeRest(words: seq<string>, first: bool): seq<string>
    requires |words| >= 1
  {
    [if first then Capitalize(words[0]) else words[0]] + CapitalizeAll(words[1..])
  }

  lemma JoinCons(c: char, w: string, ws: seq<string>, sep: char)
    ensures Join([[c] + w] + ws, sep) == [c] + Join([w] + ws, sep)
  {
    if |ws| > 0 {
      assert ([[c] + w] + ws)[1..] == ws;
      assert ([w] + ws)[1..] == ws;
    }
  }

  lemma JoinEmptyHead(ws: seq<string>, sep: char)
    requires |ws| >= 1
    ensures Join([""] + ws, sep) == [sep] + Join(ws, sep)
  {
    assert ([""] + ws)[1..] == ws;
  }

  /** Split, capitalize and join is the scan. */
  lemma {:induction false} JoinSplitIsDisplay(s: string, first: bool)
    decreases |s|
    ensures Join(CapitalizeRest(Split(s, '_'), first), ' ') == Display(s, first)
  {
    if |s| > 0 {
      var rest := Split(s[1..], '_');
      if s[0] == '_' {
        JoinSplitIsDisplay(s[1..], true);
        assert Split(s, '_') == [""] + rest;
        assert CapitalizeRest(Split(s, '_'), first) == [""] + CapitalizeRest(rest, true) by {
          assert (([""] + rest)[1..]) == rest;
        }
        JoinEmptyHead(CapitalizeRest(rest, true), ' ');
      } else {
        JoinSplitIsDisplay(s[1..], false);
        var w := [s[0]] + rest[0];
        assert Split(s, '_') == [w] + rest[1..];
        var c := if first then Upper(s[0]) else s[0];
        assert (if first then Capitalize(w) else w) == [c] + rest[0] by {
          assert w[1..] == rest[0];
        }
        assert CapitalizeRest(Split(s, '_'), first) == [[c] + rest[0]] + CapitalizeAll(rest[1..]) by {
          assert ([w] + rest[1..])[1..] == rest[1..];
        }
        JoinCons(c, rest[0], CapitalizeAll(rest[1..]), ' ');
      }
    }
  }

  /** The scan, character by character. */
  lemma {:induction false} DisplayChars(s: string, first: bool)
    decreases |s|
    ensures |Display(s, first)| == |s|
    ensures forall i :: 0 < i < |s| ==> Display(s, first)[i] == NameChar(s, i)
    ensures |s| > 0 ==>
      Display(s, first)[0] == if s[0] == '_' then ' ' else if first then Upper(s[0]) else s[0]
  {
    if |s| > 0 {
      DisplayChars(s[1..], s[0] == '_');
      forall i | 0 < i < |s| ensures Display(s, first)[i] == NameChar(s, i) {
        assert Display(s, first)[i] == Display(s[1..], s[0] == '_')[i - 1];
        if i > 1 {
          assert NameChar(s[1..], i - 1) == NameChar(s, i);
        }
      }
    }
  }

  /** `getName` keeps the length and maps each character as `NameChar`
      says: every `_` becomes a space and every word starts upper-cased. */
  lemma GetNameChars(s: string)
    ensures |GetName(s)| == |s|
    ensures forall i :: 0 <= i < |s| ==> GetName(s)[i] == NameChar(s, i)
  {
    var words := Split(s, '_');
    assert CapitalizeAll(words) == CapitalizeRest(words, true);
    JoinSplitIsDisplay(s, true);
    DisplayChars(s, true);
  }

  /** No `_` survives in a display name. */
  lemma GetNameHasNoUnderscore(s: string)
    ensures forall i :: 0 <= i < |GetName(s)| ==> GetName(s)[i] != '_'
  {
    GetNameChars(s);
  }

  /** The pieces of a split contain no separator, and joining them back with
      that separator gives the string again. */
  lemma {:induction false} SplitJoin(s: string, sep: char)
    decreases |s|
    ensures Join(Split(s, sep), sep) == s
    ensures forall k :: 0 <= k < |Split(s, sep)| ==> sep !in Split(s, sep)[k]
  {
    if |s| > 0 {
      SplitJoin(s[1..], sep);
      var rest := Split(s[1..], sep);
      if s[0] == sep {
        JoinEmptyHead(rest, sep);
        assert s == [sep] + s[1..];
      } else {
        JoinCons(s[0], rest[0], rest[1..], sep);
        assert [rest[0]] + rest[1..] == rest;
        assert s == [s[0]] + s[1..];
        forall k | 0 <= k < |Split(s, sep)| ensures sep !in Split(s, sep)[k] {
          if k > 0 {
            assert Split(s, sep)[k] == rest[k];
          }
        }
      }
    }
  }
}
