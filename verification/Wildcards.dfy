// Matching a string against a pattern with wildcards.

module Wildcards {
  /** A stretch of text that one character of a pattern stands for. */
  predicate Fits(c: char, text: string) {
    if c == '*' then true else if c == '?' then |text| == 1 else text == [c]
  }

  function Joined(pieces: seq<string>): string {
    if pieces == [] then "" else pieces[0] + Joined(pieces[1..])
  }

  /** The text can be cut into one piece for each character of the pattern. */
  ghost predicate Described(pattern: string, text: string) {
    exists pieces: seq<string> :: Cut(pattern, text, pieces)
  }

  ghost predicate Cut(pattern: string, text: string, pieces: seq<string>) {
    && |pieces| == |pattern| && Joined(pieces) == text
    && forall i :: 0 <= i < |pattern| ==> Fits(pattern[i], pieces[i])
  }

  lemma NoPattern(text: string)
    ensures Described("", text) <==> text == ""
  {
    if text == "" {
      assert Cut("", text, []);
    }
  }

  /** The first character stands for some first part of the text. */
  lemma FirstPiece(pattern: string, text: string)
    requires pattern != ""
    ensures Described(pattern, text) <==>
      exists k :: 0 <= k <= |text| && Fits(pattern[0], text[..k]) && Described(pattern[1..], text[k..])
  {
    if Described(pattern, text) {
      var pieces: seq<string> :| Cut(pattern, text, pieces);
      var k := |pieces[0]|;
      assert text == pieces[0] + Joined(pieces[1..]);
      assert text[..k] == pieces[0] && text[k..] == Joined(pieces[1..]);
      assert Cut(pattern[1..], text[k..], pieces[1..]);
    }
    if k :| 0 <= k <= |text| && Fits(pattern[0], text[..k]) && Described(pattern[1..], text[k..]) {
      var rest: seq<string> :| Cut(pattern[1..], text[k..], rest);
      var pieces := [text[..k]] + rest;
      assert pieces[1..] == rest && text == text[..k] + text[k..];
      forall i | 0 <= i < |pattern| ensures Fits(pattern[i], pieces[i]) {
        assert i > 0 ==> pattern[i] == pattern[1..][i - 1];
      }
      assert Cut(pattern, text, pieces);
    }
  }

  /** A star takes any number of characters, a question mark one, anything else itself. */
  method WildcardMatches(pattern: string, text: string) returns (r: bool)
    ensures r <==> Described(pattern, text)
    decreases pattern
  {
    if pattern == "" {
      NoPattern(text);
      return text == "";
    }
    FirstPiece(pattern, text);
    if pattern[0] == '*' {
      var k := 0;
      while k < |text|
        invariant 0 <= k <= |text|
        invariant forall j :: 0 <= j < k ==> !Described(pattern[1..], text[j..])
      {
        r := WildcardMatches(pattern[1..], text[k..]);
        if r {
          return;
        }
        k := k + 1;
      }
      r := WildcardMatches(pattern[1..], text[k..]);
      return;
    }
    if pattern[0] != '?' {
      if text == "" || pattern[0] != text[0] {
        Stops(pattern, text);
        return false;
      }
    } else if text == "" {
      return false;
    }
    assert text[..1] == [text[0]];
    r := WildcardMatches(pattern[1..], text[1..]);
  }

  lemma Stops(pattern: string, text: string)
    requires pattern != "" && pattern[0] != '*' && pattern[0] != '?' && (text == "" || pattern[0] != text[0])
    ensures !Described(pattern, text)
  {
    FirstPiece(pattern, text);
    forall k | 0 <= k <= |text| ensures !Fits(pattern[0], text[..k]) {
      assert k > 0 ==> text[..k][0] == text[0];
    }
  }
}
