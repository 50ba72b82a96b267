/** The string operations of Go's strings package that the other modules use. */
module Text {
  import opened Wrappers

  predicate HasPrefix(s: string, p: string) { |p| <= |s| && s[..|p|] == p }

  /** strings.IndexByte, with |s| for "not found". */
  function IndexOf(s: string, c: char): (i: nat)
    ensures i <= |s| && (i < |s| ==> s[i] == c) && forall j | 0 <= j < i :: s[j] != c
  {
    if s == "" || s[0] == c then 0 else 1 + IndexOf(s[1..], c)
  }

  /** strings.IndexAny, with |s| for "not found". */
  function IndexAny(s: string, cs: set<char>): (i: nat)
    ensures i <= |s| && (i < |s| ==> s[i] in cs) && forall j | 0 <= j < i :: s[j] !in cs
  {
    if s == "" || s[0] in cs then 0 else 1 + IndexAny(s[1..], cs)
  }

  /** `p` stands at offset `i` of `s`. */
  predicate Occurs(s: string, p: string, i: int) { 0 <= i && i + |p| <= |s| && s[i..i + |p|] == p }

  lemma OccursTail(s: string, p: string, j: int)
    requires s != "" && 1 <= j
    ensures Occurs(s, p, j) <==> Occurs(s[1..], p, j - 1)
  {
    if j + |p| <= |s| {
      assert s[1..][j - 1..j - 1 + |p|] == s[j..j + |p|];
    }
  }

  /** strings.Index, with -1 for "not found". */
  function Index(s: string, p: string): (i: int)
    ensures i == -1 || Occurs(s, p, i)
    ensures forall j | 0 <= j && (i == -1 || j < i) :: !Occurs(s, p, j)
  {
    if |s| < |p| then -1
    else if s[..|p|] == p then 0
    else if s == "" then -1
    else
      var i := Index(s[1..], p);
      assert forall j | 1 <= j :: Occurs(s, p, j) <==> Occurs(s[1..], p, j - 1) by {
        forall j | 1 <= j ensures Occurs(s, p, j) <==> Occurs(s[1..], p, j - 1) { OccursTail(s, p, j); }
      }
      assert !Occurs(s, p, 0) by { assert s[0..|p|] == s[..|p|]; }
      if i == -1 then -1 else i + 1
  }

  /** strings.Split on "/". */
  function Split(s: string): (parts: seq<string>)
    ensures |parts| >= 1
    decreases |s|
  {
    var i := IndexOf(s, '/');
    if i == |s| then [s] else [s[..i]] + Split(s[i + 1..])
  }

  lemma IndexOfUnique(s: string, c: char, i: nat)
    requires i <= |s| && (i < |s| ==> s[i] == c) && forall j | 0 <= j < i :: s[j] != c
    ensures IndexOf(s, c) == i
  {
  }

  lemma SplitCons(pre: string, rest: string)
    requires '/' !in pre
    ensures Split(pre + "/" + rest) == [pre] + Split(rest)
  {
    var s := pre + "/" + rest;
    IndexOfUnique(s, '/', |pre|);
    assert s[..|pre|] == pre && s[|pre| + 1..] == rest;
  }

  lemma SplitPlain(s: string)
    requires '/' !in s
    ensures Split(s) == [s]
  {
    IndexOfUnique(s, '/', |s|);
  }

  lemma FirstSlash(s: string) returns (pre: string, rest: string)
    requires '/' in s
    ensures '/' !in pre && s == pre + "/" + rest && |rest| < |s|
  {
    var i := IndexOf(s, '/');
    pre, rest := s[..i], s[i + 1..];
  }

  function TrimLeft(s: string, cs: set<char>): string {
    if s != "" && s[0] in cs then TrimLeft(s[1..], cs) else s
  }

  function TrimRight(s: string, cs: set<char>): string {
    if s != "" && s[|s| - 1] in cs then TrimRight(s[..|s| - 1], cs) else s
  }

  /** Only characters of the set are cut off, and none is left at that end. */
  lemma {:induction false} TrimLeftCuts(s: string, cs: set<char>)
    ensures
      var k := |s| - |TrimLeft(s, cs)|;
      k >= 0 && s[k..] == TrimLeft(s, cs) && forall i | 0 <= i < k :: s[i] in cs
    ensures TrimLeft(s, cs) != "" ==> TrimLeft(s, cs)[0] !in cs
  {
    if s != "" && s[0] in cs {
      TrimLeftCuts(s[1..], cs);
      assert forall i | 0 < i < |s| :: s[i] == s[1..][i - 1];
    }
  }

  lemma {:induction false} TrimRightCuts(s: string, cs: set<char>)
    ensures
      var k := |TrimRight(s, cs)|;
      k <= |s| && s[..k] == TrimRight(s, cs) && forall i | k <= i < |s| :: s[i] in cs
    ensures TrimRight(s, cs) != "" ==> TrimRight(s, cs)[|TrimRight(s, cs)| - 1] !in cs
  {
    if s != "" && s[|s| - 1] in cs {
      TrimRightCuts(s[..|s| - 1], cs);
    }
  }

  function Trim(s: string, cs: set<char>): string { TrimRight(TrimLeft(s, cs), cs) }

  lemma AppendAssoc<T>(a: seq<T>, b: seq<T>, c: seq<T>)
    ensures (a + b) + c == a + (b + c)
  {
  }

  /******* Percent escapes, each char standing for one byte *******/

  function HexDigit(c: char): Option<nat> {
    if '0' <= c <= '9' then Some((c - '0') as nat)
    else if 'a' <= c <= 'f' then Some((c - 'a') as nat + 10)
    else if 'A' <= c <= 'F' then Some((c - 'A') as nat + 10)
    else None
  }

  /** url.PathUnescape; None when an escape is malformed. */
  function Unescape(s: string): Option<string> {
    if s == "" then Some("")
    else if s[0] != '%' then
      match Unescape(s[1..])
      case None => None
      case Some(rest) => Some([s[0]] + rest)
    else if |s| < 3 || HexDigit(s[1]).None? || HexDigit(s[2]).None? then None
    else
      match Unescape(s[3..])
      case None => None
      case Some(rest) => Some([(HexDigit(s[1]).value * 16 + HexDigit(s[2]).value) as char] + rest)
  }

  lemma {:induction false} UnescapePlain(s: string)
    requires '%' !in s
    ensures Unescape(s) == Some(s)
  {
    if s != "" {
      assert s[0] in s;
      UnescapePlain(s[1..]);
      assert [s[0]] + s[1..] == s;
    }
  }

  lemma UnescapeFirst(h: char, l: char, rest: string)
    requires HexDigit(h).Some? && HexDigit(l).Some? && '%' !in rest
    ensures Unescape(['%', h, l] + rest) == Some([(HexDigit(h).value * 16 + HexDigit(l).value) as char] + rest)
  {
    UnescapePlain(rest);
    assert (['%', h, l] + rest)[3..] == rest;
  }
}
