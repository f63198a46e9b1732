/** The string operations of JavaScript that the sources lean on: white space, trim, split and join. */
module Text {

  /** What `\s` matches and trim() removes. */
  predicate IsSpace(c: char) {
    c == ' ' || 9 <= c as int <= 13 || c as int in
      {0xA0, 0x1680, 0x2000, 0x2001, 0x2002, 0x2003, 0x2004, 0x2005, 0x2006, 0x2007, 0x2008, 0x2009, 0x200A,
       0x2028, 0x2029, 0x202F, 0x205F, 0x3000, 0xFEFF}
  }

  /** `/^\s*$/`. */
  predicate Blank(s: string) {
    forall i :: 0 <= i < |s| ==> IsSpace(s[i])
  }

  /** The length of the leading white space. */
  function Leading(s: string): (n: nat)
    ensures n <= |s| && (forall i :: 0 <= i < n ==> IsSpace(s[i])) && (n < |s| ==> !IsSpace(s[n]))
  {
    if s == "" || !IsSpace(s[0]) then 0 else 1 + Leading(s[1..])
  }

  function TrimStart(s: string): (t: string)
    ensures |t| <= |s| && t == s[|s| - |t|..] && Blank(s[..|s| - |t|])
    ensures t == "" || !IsSpace(t[0])
  {
    var n := Leading(s);
    assert |s[n..]| == |s| - n && forall i :: 0 <= i < n ==> IsSpace(s[..n][i]);
    s[n..]
  }

  /** Where the trailing white space begins. */
  function Ending(s: string): (n: nat)
    ensures n <= |s| && (forall i :: n <= i < |s| ==> IsSpace(s[i])) && (n > 0 ==> !IsSpace(s[n - 1]))
  {
    if s == "" || !IsSpace(s[|s| - 1]) then |s| else Ending(s[..|s| - 1])
  }

  function TrimEnd(s: string): (t: string)
    ensures t <= s && Blank(s[|t|..])
    ensures t == "" || !IsSpace(t[|t| - 1])
  {
    var n := Ending(s);
    assert |s[..n]| == n && forall i :: 0 <= i < |s| - n ==> IsSpace(s[n..][i]);
    s[..n]
  }

  function Trim(s: string): string {
    TrimEnd(TrimStart(s))
  }

  /** Neither end is white space. */
  predicate Trimmed(s: string) {
    s == "" || (!IsSpace(s[0]) && !IsSpace(s[|s| - 1]))
  }

  lemma TrimIsTrimmed(s: string)
    ensures Trimmed(Trim(s))
    ensures Trimmed(s) ==> Trim(s) == s
    ensures Trim(s) == "" <==> Blank(s)
  {
    var t := TrimStart(s);
    if Trim(s) == "" {
      assert Blank(t[0..]) && t[0..] == t;
      assert t == "";
      assert s == s[..|s| - |t|];
    }
  }

  lemma LeadingSpace(s: string)
    requires Leading(s) == 0
    ensures TrimStart(" " + s) == s
  {
    assert IsSpace(' ');
    hide IsSpace;
    assert (" " + s)[1..] == s && Leading(" " + s) == 1;
  }

  /** Leading white space in front of a trimmed string. */
  lemma TrimPadded(s: string)
    requires Trimmed(s)
    ensures Trim(" " + s) == s
  {
    LeadingSpace(s);
    hide TrimStart, IsSpace;
    assert Ending(s) == |s|;
  }

  function Split(s: string, sep: char): (parts: seq<string>)
    ensures |parts| >= 1
  {
    if s == "" then [""] else
      var rest := Split(s[1..], sep);
      if s[0] == sep then [""] + rest else [[s[0]] + rest[0]] + rest[1..]
  }

  function Join(parts: seq<string>, sep: string): string {
    if parts == [] then "" else if |parts| == 1 then parts[0] else parts[0] + sep + Join(parts[1..], sep)
  }

  predicate Without(s: string, c: char) {
    forall i :: 0 <= i < |s| ==> s[i] != c
  }

  /** No part of a split contains the separator. */
  lemma {:induction false} SplitWithout(s: string, sep: char)
    ensures forall i :: 0 <= i < |Split(s, sep)| ==> Without(Split(s, sep)[i], sep)
  {
    if s == "" {
    } else {
      SplitWithout(s[1..], sep);
      var parts, rest := Split(s, sep), Split(s[1..], sep);
      forall i | 0 <= i < |parts|
        ensures Without(parts[i], sep)
      {
        if s[0] == sep {
          assert i == 0 || parts[i] == rest[i - 1];
        } else {
          assert Without(rest[0], sep);
          assert parts[i] == if i == 0 then [s[0]] + rest[0] else rest[i];
        }
      }
    }
  }

  /** Text before the first separator. */
  lemma {:induction false} SplitHead(head: string, sep: char, rest: string)
    requires Without(head, sep)
    ensures Split(head + [sep] + rest, sep) == [head] + Split(rest, sep)
    ensures Split(head, sep) == [head]
  {
    if head == "" {
      assert (head + [sep] + rest)[1..] == rest;
    } else {
      var s := head + [sep] + rest;
      assert s[1..] == head[1..] + [sep] + rest && s[0] == head[0] && head[0] != sep;
      SplitHead(head[1..], sep, rest);
      assert [head[0]] + head[1..] == head;
    }
  }

  /** Splitting undoes joining. */
  lemma {:induction false} SplitJoin(parts: seq<string>, sep: char)
    requires parts != [] && forall i :: 0 <= i < |parts| ==> Without(parts[i], sep)
    ensures Split(Join(parts, [sep]), sep) == parts
  {
    if |parts| == 1 {
      SplitHead(parts[0], sep, "");
    } else {
      SplitHead(parts[0], sep, Join(parts[1..], [sep]));
      SplitJoin(parts[1..], sep);
      assert [parts[0]] + parts[1..] == parts;
    }
  }

  lemma JoinEmptyHead(rest: seq<string>, sep: string)
    requires rest != []
    ensures Join([""] + rest, sep) == sep + Join(rest, sep)
  {
    assert ([""] + rest)[1..] == rest;
    assert "" + sep + Join(rest, sep) == sep + Join(rest, sep);
  }

  lemma JoinLongerHead(c: char, rest: seq<string>, sep: string)
    requires rest != []
    ensures Join([[c] + rest[0]] + rest[1..], sep) == [c] + Join(rest, sep)
  {
    var parts := [[c] + rest[0]] + rest[1..];
    assert parts[1..] == rest[1..];
    if |rest| > 1 {
      assert [c] + rest[0] + sep + Join(rest[1..], sep) == [c] + (rest[0] + sep + Join(rest[1..], sep));
    }
  }

  /** Joining undoes splitting. */
  lemma {:induction false} JoinSplit(s: string, sep: char)
    ensures Join(Split(s, sep), [sep]) == s
  {
    if s == "" {
    } else {
      var rest := Split(s[1..], sep);
      assert Split(s, sep) == if s[0] == sep then [""] + rest else [[s[0]] + rest[0]] + rest[1..];
      hide *;
      JoinSplit(s[1..], sep);
      if s[0] == sep {
        JoinEmptyHead(rest, [sep]);
      } else {
        JoinLongerHead(s[0], rest, [sep]);
      }
      assert [s[0]] + s[1..] == s;
    }
  }
}
