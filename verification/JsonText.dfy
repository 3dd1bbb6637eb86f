/** Removing what follows the JSON text in a receive buffer that was not cleared. */
module JsonText {

  /** Index of the last occurrence of the character, or -1. */
  function LastIndex(s: string, c: char): (i: int)
    ensures -1 <= i < |s|
    ensures i >= 0 ==> s[i] == c
    ensures forall j :: i < j < |s| ==> s[j] != c
  {
    if s == [] then -1
    else if s[|s| - 1] == c then |s| - 1
    else LastIndex(s[..|s| - 1], c)
  }

  /** The string up to and including the last occurrence, or all of it if there is none. */
  function UpToLast(s: string, c: char): (r: string)
    ensures r <= s
  {
    var i := LastIndex(s, c);
    if i < 0 then s else s[..i + 1]
  }

  /** The clean-up before parsing: first back to the last newline, then back to the last brace. */
  method Clean(input: string) returns (cpy: string)
    ensures cpy == UpToLast(UpToLast(input, '\n'), '}')
  {
    cpy := input;
    var idx := LastIndex(cpy, '\n');
    if idx != -1 {
      cpy := cpy[..idx + 1];
    }
    var lastBrace := LastIndex(cpy, '}');
    if lastBrace != -1 && lastBrace != |cpy| - 1 {
      cpy := cpy[..lastBrace + 1];
    }
  }

  lemma LastIndexIs(s: string, c: char, i: int)
    requires -1 <= i < |s| && (i >= 0 ==> s[i] == c) && forall j :: i < j < |s| ==> s[j] != c
    ensures LastIndex(s, c) == i
  {
  }

  /**
    A line of JSON followed by left-over bytes comes out clean exactly when the left-overs hold no
    closing brace in front of their own last newline; without a newline they never matter.
   */
  lemma CleanRecovers(p: string, rest: string)
    requires p != [] && p[|p| - 1] == '}'
    ensures UpToLast(UpToLast(p + "\n" + rest, '\n'), '}') == p <==>
            ('\n' in rest ==> '}' !in UpToLast(rest, '\n'))
  {
    var s := p + "\n" + rest;
    var k := LastIndex(rest, '\n');
    LastIndexIs(s, '\n', |p| + 1 + k);
    var cut := UpToLast(s, '\n');
    var tail := if k < 0 then [] else rest[..k + 1];
    assert cut == p + "\n" + tail;
    var b := LastIndex(tail, '}');
    if b < 0 {
      LastIndexIs(cut, '}', |p| - 1);
      assert cut[..|p|] == p;
    } else {
      LastIndexIs(cut, '}', |p| + 1 + b);
      assert |UpToLast(cut, '}')| > |p|;
    }
  }
}
