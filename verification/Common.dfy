/** Small shared pieces: an optional value, ASCII text helpers, and picking from a set. */
module Common {

  datatype Option<T> = None | Some(value: T)

  // Some element; which one comes first is up to the set.
  method PickAny<T>(s: set<T>) returns (x: T)
    requires s != {}
    ensures x in s
  {
    x :| x in s;
  }

  predicate Blank(c: char) { c == ' ' || c == '\t' || c == '\n' || c == '\r' }

  function Strip(s: string): string {
    if s == "" then ""
    else if Blank(s[0]) then Strip(s[1..])
    else if Blank(s[|s| - 1]) then Strip(s[..|s| - 1])
    else s
  }

  predicate AllBlank(s: string) { forall i :: 0 <= i < |s| ==> s[i] in " \t\n\r" }

  lemma {:induction false} StripEmptyIff(s: string)
    ensures Strip(s) == "" <==> AllBlank(s)
    decreases |s|
  {
    if s != "" {
      if Blank(s[0]) {
        StripEmptyIff(s[1..]);
        assert s == [s[0]] + s[1..];
      } else if Blank(s[|s| - 1]) {
        StripEmptyIff(s[..|s| - 1]);
        assert s[..|s| - 1][0] == s[0];
      }
    }
  }

  // Stripping takes away blanks at both ends and leaves none there.
  lemma {:induction false} StripMeans(s: string) returns (i: nat, j: nat)
    ensures i <= j <= |s| && Strip(s) == s[i..j] && AllBlank(s[..i]) && AllBlank(s[j..])
    ensures Strip(s) != "" ==> !Blank(Strip(s)[0]) && !Blank(Strip(s)[|Strip(s)| - 1])
    decreases |s|
  {
    i, j := 0, |s|;
    if s != "" && Blank(s[0]) {
      i, j := StripMeans(s[1..]);
      StripFront(s, i, j);
      i, j := i + 1, j + 1;
    } else if s != "" && Blank(s[|s| - 1]) {
      i, j := StripMeans(s[..|s| - 1]);
      StripBack(s, i, j);
    } else {
      assert s[0..|s|] == s;
    }
  }

  lemma StripFront(s: string, i: nat, j: nat)
    requires s != "" && Blank(s[0]) && i <= j < |s| && AllBlank(s[1..][..i]) && AllBlank(s[1..][j..])
    ensures s[1..][i..j] == s[i + 1..j + 1] && AllBlank(s[..i + 1]) && AllBlank(s[j + 1..])
  {
    assert s[..i + 1] == [s[0]] + s[1..][..i] && s[j + 1..] == s[1..][j..];
  }

  lemma StripBack(s: string, i: nat, j: nat)
    requires s != "" && Blank(s[|s| - 1]) && i <= j < |s|
    requires AllBlank(s[..|s| - 1][..i]) && AllBlank(s[..|s| - 1][j..])
    ensures s[..|s| - 1][i..j] == s[i..j] && AllBlank(s[..i]) && AllBlank(s[j..])
  {
    assert s[..i] == s[..|s| - 1][..i] && s[j..] == s[..|s| - 1][j..] + [s[|s| - 1]];
  }

  function UpperChar(c: char): char { if 'a' <= c <= 'z' then c - 'a' + 'A' else c }

  function LowerChar(c: char): char { if 'A' <= c <= 'Z' then c - 'A' + 'a' else c }

  function Upper(s: string): string { seq(|s|, i requires 0 <= i < |s| => UpperChar(s[i])) }

  function Lower(s: string): string { seq(|s|, i requires 0 <= i < |s| => LowerChar(s[i])) }

  // The two cases of a letter are 32 apart; nothing else changes.
  predicate SameButForCase(s: string, t: string) {
    |s| == |t| && forall i :: 0 <= i < |s| ==>
      || s[i] == t[i]
      || ('A' <= s[i] <= 'Z' && t[i] as int == s[i] as int + 32)
      || ('A' <= t[i] <= 'Z' && s[i] as int == t[i] as int + 32)
  }

  lemma CaseMeans(s: string, t: string)
    ensures Lower(s) == Lower(t) <==> SameButForCase(s, t)
    ensures Upper(s) == Upper(t) <==> SameButForCase(s, t)
    ensures forall i :: 0 <= i < |Lower(s)| ==> !('A' <= Lower(s)[i] <= 'Z')
    ensures forall i :: 0 <= i < |Upper(s)| ==> !('a' <= Upper(s)[i] <= 'z')
  {
    if Lower(s) == Lower(t) {
      forall i | 0 <= i < |s| ensures LowerChar(s[i]) == LowerChar(t[i]) { assert Lower(s)[i] == Lower(t)[i]; }
    }
    if Upper(s) == Upper(t) {
      forall i | 0 <= i < |s| ensures UpperChar(s[i]) == UpperChar(t[i]) { assert Upper(s)[i] == Upper(t)[i]; }
    }
  }
}
