/** Searching and trimming strings as the C library does. */
module Text {

  const CRLF := "\r\n"

  /** isspace in the C locale. */
  predicate IsSpace(c: char) { c == ' ' || '\t' <= c <= '\r' }

  /** The first position of c in s, or |s|. */
  function Find(s: string, c: char): (i: nat)
    ensures i <= |s| && (i < |s| ==> s[i] == c) && forall k :: 0 <= k < i ==> s[k] != c
  {
    if s == "" || s[0] == c then 0 else 1 + Find(s[1..], c)
  }

  lemma FindIs(s: string, c: char, i: nat)
    requires i <= |s| && (i < |s| ==> s[i] == c) && forall k :: 0 <= k < i ==> s[k] != c
    ensures Find(s, c) == i
  {
  }

  function TrimLeft(s: string): (t: string)
    ensures t == "" || !IsSpace(t[0])
    ensures |t| <= |s| && t == s[|s| - |t|..]
  {
    if s != "" && IsSpace(s[0]) then TrimLeft(s[1..]) else s
  }

  function TrimRight(s: string): (t: string)
    ensures t == "" || !IsSpace(t[|t| - 1])
    ensures |t| <= |s| && t == s[..|t|]
  {
    if s != "" && IsSpace(s[|s| - 1]) then TrimRight(s[..|s| - 1]) else s
  }

  predicate IsTrimmed(s: string) { s != "" ==> !IsSpace(s[0]) && !IsSpace(s[|s| - 1]) }

  lemma TrimIs(s: string)
    ensures IsTrimmed(TrimRight(TrimLeft(s)))
  {
    var t := TrimRight(TrimLeft(s));
    assert t != "" ==> t[0] == TrimLeft(s)[0];
  }

  /** White space as isspace has it: tab, line feed, vertical tab, form feed, carriage return and space. */
  lemma SpacesAre(c: char)
    ensures IsSpace(c) <==> (c as int in {9, 10, 11, 12, 13, 32})
  {
  }

  ghost predicate AllSpace(s: string) { forall c <- s :: IsSpace(c) }

  lemma {:induction false} LeftSpace(s: string)
    ensures AllSpace(s[..|s| - |TrimLeft(s)|])
  {
    if s != "" && IsSpace(s[0]) {
      var t := TrimLeft(s[1..]);
      assert TrimLeft(s) == t;
      LeftSpace(s[1..]);
      hide TrimLeft, IsSpace;
      assert s[..|s| - |t|] == [s[0]] + s[1..][..|s[1..]| - |t|];
    }
  }

  lemma {:induction false} RightSpace(s: string)
    ensures AllSpace(s[|TrimRight(s)|..])
  {
    if s != "" && IsSpace(s[|s| - 1]) {
      RightSpace(s[..|s| - 1]);
      assert s[|TrimRight(s)|..] == s[..|s| - 1][|TrimRight(s)|..] + [s[|s| - 1]];
    }
  }

  lemma {:induction false} SpacesTrimmed(spaces: string, t: string)
    requires AllSpace(spaces) && t != "" && !IsSpace(t[0])
    ensures TrimLeft(spaces + t) == t
  {
    if spaces == "" {
      assert spaces + t == t;
    } else {
      assert (spaces + t)[0] in spaces && (spaces + t)[1..] == spaces[1..] + t;
      SpacesTrimmed(spaces[1..], t);
    }
  }

  /** What a C string shows of s. */
  function CString(s: string): string { s[..Find(s, '\0')] }

  function Concat(pieces: seq<string>): string {
    if pieces == [] then "" else pieces[0] + Concat(pieces[1..])
  }
}
