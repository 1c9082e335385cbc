/** The string operations the models share, over ASCII text. */
module Text {

  predicate Blank(c: char) {
    c == ' ' || 9 as char <= c <= 13 as char || 28 as char <= c <= 31 as char
  }

  function UpperChar(c: char): char {
    if 'a' <= c <= 'z' then c - 32 as char else c
  }

  function LowerChar(c: char): char {
    if 'A' <= c <= 'Z' then c + 32 as char else c
  }

  function Upper(s: string): (r: string)
    ensures |r| == |s|
  {
    seq(|s|, k requires 0 <= k < |s| => UpperChar(s[k]))
  }

  function Lower(s: string): (r: string)
    ensures |r| == |s|
  {
    seq(|s|, k requires 0 <= k < |s| => LowerChar(s[k]))
  }

  function StripLeft(s: string): (r: string)
    ensures |r| <= |s| && (r == "" || !Blank(r[0]))
    ensures s != "" && !Blank(s[0]) ==> r == s
  {
    if s != "" && Blank(s[0]) then StripLeft(s[1..]) else s
  }

  function StripRight(s: string): (r: string)
    ensures r <= s && (r == "" || !Blank(r[|r| - 1]))
    ensures s != "" && !Blank(s[|s| - 1]) ==> r == s
  {
    if s != "" && Blank(s[|s| - 1]) then StripRight(s[..|s| - 1]) else s
  }

  predicate Trimmed(s: string) {
    s == "" || (!Blank(s[0]) && !Blank(s[|s| - 1]))
  }

  /** `str.strip`: no blank at either end; a trimmed text stays as it is. */
  function Strip(s: string): (r: string)
    ensures Trimmed(r) && (Trimmed(s) ==> r == s)
  {
    StripRight(StripLeft(s))
  }

  function Ends(s: string, tail: string): bool {
    |tail| <= |s| && s[|s| - |tail|..] == tail
  }

  predicate AllBlank(s: string) {
    forall k :: 0 <= k < |s| ==> Blank(s[k])
  }

  lemma {:induction false} LeftStripped(s: string) returns (front: string)
    ensures s == front + StripLeft(s) && AllBlank(front)
  {
    front := "";
    if s != "" && Blank(s[0]) {
      var rest := LeftStripped(s[1..]);
      front := [s[0]] + rest;
      HeadBlank(s, rest, StripLeft(s[1..]));
    }
  }

  lemma HeadBlank(s: string, rest: string, stripped: string)
    requires s != "" && Blank(s[0]) && s[1..] == rest + stripped && AllBlank(rest)
    ensures s == [s[0]] + rest + stripped && AllBlank([s[0]] + rest)
  {
    assert s == [s[0]] + s[1..];
  }

  lemma {:induction false} RightStripped(s: string) returns (back: string)
    ensures s == StripRight(s) + back && AllBlank(back)
  {
    back := "";
    if s != "" && Blank(s[|s| - 1]) {
      var rest := RightStripped(s[..|s| - 1]);
      back := rest + [s[|s| - 1]];
      LastBlank(s, rest, StripRight(s[..|s| - 1]));
    }
  }

  lemma LastBlank(s: string, rest: string, stripped: string)
    requires s != "" && Blank(s[|s| - 1]) && s[..|s| - 1] == stripped + rest && AllBlank(rest)
    ensures s == stripped + (rest + [s[|s| - 1]]) && AllBlank(rest + [s[|s| - 1]])
  {
    assert s == s[..|s| - 1] + [s[|s| - 1]];
  }

  /** Stripping takes away blanks only, all of them at the ends. */
  lemma StripExactly(s: string)
    ensures exists front: string, back: string :: AllBlank(front) && AllBlank(back) && s == front + Strip(s) + back
    ensures Trimmed(Strip(s))
  {
    var front := LeftStripped(s);
    var back := RightStripped(StripLeft(s));
    assert s == front + Strip(s) + back;
  }

  /** `to` is `from` with its small letters, and nothing else, made capital. */
  predicate Capitalizes(from: string, to: string) {
    |to| == |from| &&
    forall k :: 0 <= k < |from| ==> if 97 <= from[k] as int <= 122 then to[k] as int == from[k] as int - 32 else to[k] == from[k]
  }

  predicate LowersTo(from: string, to: string) {
    |to| == |from| &&
    forall k :: 0 <= k < |from| ==> if 65 <= from[k] as int <= 90 then to[k] as int == from[k] as int + 32 else to[k] == from[k]
  }

  lemma UpperExactly(from: string, to: string)
    ensures to == Upper(from) <==> Capitalizes(from, to)
  {
    if Capitalizes(from, to) {
      forall k | 0 <= k < |from|
        ensures to[k] == Upper(from)[k]
      {
      }
    }
  }

  lemma LowerExactly(from: string, to: string)
    ensures to == Lower(from) <==> LowersTo(from, to)
  {
    if LowersTo(from, to) {
      forall k | 0 <= k < |from|
        ensures to[k] == Lower(from)[k]
      {
      }
    }
  }
}
